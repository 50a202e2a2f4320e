/** The colour engine of the diagram editor: the preset gradients, linear
    interpolation between two colours, mapping a simulated concentration onto a
    gradient, the colour-scale limits with their 50% headroom, the nearest-time
    lookup in a room's result table and the legend's stop and tick arithmetic. */
module Colors {
  import opened Wrappers
  import opened PyOps

  /** An RGB colour as built by `QColor(r, g, b)`; channels are kept as plain
      integers so that an out-of-range channel can be stated, not hidden. */
  datatype Color = Color(r: int, g: int, b: int)

  predicate ValidColor(c: Color)
  {
    0 <= c.r <= 255 && 0 <= c.g <= 255 && 0 <= c.b <= 255
  }

  // The named colours the editor uses, after Qt's lookup of SVG colour
  // keywords (spaces dropped, so "dark blue" is darkblue).
  const DarkBlue := Color(0, 0, 139)
  const Blue := Color(0, 0, 255)
  const Green := Color(0, 128, 0)
  const Yellow := Color(255, 255, 0)
  const Red := Color(255, 0, 0)
  const White := Color(255, 255, 255)
  const Black := Color(0, 0, 0)
  const Purple := Color(128, 0, 128)
  const Orange := Color(255, 165, 0)
  const DarkMagenta := Color(139, 0, 139)
  const DarkGray := Color(169, 169, 169)

  /** The entries of the gradient drop-down, in the order it lists them. */
  const GradientNames: seq<string> := ["ironbow", "Rainbow", "Blue-Red", "Green-Yellow", "Purple-Orange", "Black-White"]

  /** `get_gradient_colors`: the six presets by name, and a single dark grey for
      any other name. */
  function GradientColors(name: string): (cs: seq<Color>)
    ensures |cs| >= 1
    ensures forall i :: 0 <= i < |cs| ==> ValidColor(cs[i])
    ensures name !in GradientNames <==> cs == [DarkGray]
    ensures name == "Rainbow" ==> cs == [DarkBlue, Blue, Green, Yellow, Red, White]
    ensures name == "ironbow" ==> cs == [Black, DarkMagenta, Orange, White]
    ensures name == "Blue-Red" ==> cs == [Blue, Red]
    ensures name == "Black-White" ==> cs == [Black, White]
    ensures name == "Green-Yellow" ==> cs == [Green, Yellow]
    ensures name == "Purple-Orange" ==> cs == [Purple, Orange]
  {
    if name == "Rainbow" then [DarkBlue, Blue, Green, Yellow, Red, White]
    else if name == "Blue-Red" then [Blue, Red]
    else if name == "Black-White" then [Black, White]
    else if name == "Green-Yellow" then [Green, Yellow]
    else if name == "Purple-Orange" then [Purple, Orange]
    else if name == "ironbow" then [Black, DarkMagenta, Orange, White]
    else [DarkGray]
  }

  /** Every preset lists at least two colours, so only an unknown name gives a
      one-colour gradient. */
  lemma PresetsHaveTwoStops(name: string)
    ensures name in GradientNames <==> |GradientColors(name)| >= 2
  {
  }

  /** One channel of `interpolate_color`: `int(a + (b - a) * t)`. */
  function Mix(a: int, b: int, t: real): int
  {
    Trunc(a as real + (b - a) as real * t)
  }

  /** `x` lies between `a` and `b`, whichever is larger. */
  predicate Within(x: int, a: int, b: int)
  {
    (a <= x <= b) || (b <= x <= a)
  }

  /** Each channel of `c` lies between the matching channels of `c1` and `c2`. */
  predicate ColorBetween(c: Color, c1: Color, c2: Color)
  {
    Within(c.r, c1.r, c2.r) && Within(c.g, c1.g, c2.g) && Within(c.b, c1.b, c2.b)
  }

  /** A fraction of a non-negative amount is at most the amount. */
  lemma ScaleDown(d: real, t: real)
    requires 0.0 <= d && 0.0 <= t <= 1.0
    ensures 0.0 <= d * t <= d
  {
    assert d * (1.0 - t) >= 0.0;
  }

  lemma MixWithin(a: int, b: int, t: real)
    requires 0 <= a && 0 <= b && 0.0 <= t <= 1.0
    ensures Within(Mix(a, b, t), a, b)
    ensures t == 0.0 ==> Mix(a, b, t) == a
  {
    var x := a as real + (b - a) as real * t;
    if a <= b {
      StepBetween(a, b, t);
      TruncBetween(x, a, b);
    } else {
      StepDownBetween(b, a, t);
      TruncBetween(x, b, a);
    }
    if t == 0.0 {
      assert x == a as real;
      TruncBetween(x, a, a);
    }
  }

  /** Moving a fraction `t` of the way up from `lo` to `hi` stays between them. */
  lemma StepBetween(lo: int, hi: int, t: real)
    requires lo <= hi && 0.0 <= t <= 1.0
    ensures lo as real <= lo as real + (hi - lo) as real * t <= hi as real
  {
    ScaleDown((hi - lo) as real, t);
  }

  /** Moving a fraction `t` of the way down from `hi` to `lo` stays between them. */
  lemma StepDownBetween(lo: int, hi: int, t: real)
    requires lo <= hi && 0.0 <= t <= 1.0
    ensures lo as real <= hi as real + (lo - hi) as real * t <= hi as real
  {
    ScaleDown((hi - lo) as real, t);
    assert (lo - hi) as real * t == -((hi - lo) as real * t);
  }

  lemma TruncBetween(x: real, lo: int, hi: int)
    requires 0 <= lo && lo as real <= x <= hi as real
    ensures lo <= Trunc(x) <= hi
    ensures x == lo as real ==> Trunc(x) == lo
  {
  }

  /** `interpolate_color`: channel-wise linear interpolation with `int()`
      truncation. For `t` in [0, 1] every channel lies between the two end
      channels, so two valid colours give a valid colour, and `t = 0` gives the
      first colour back. */
  function Interpolate(c1: Color, c2: Color, t: real): Color
  {
    Color(Mix(c1.r, c2.r, t), Mix(c1.g, c2.g, t), Mix(c1.b, c2.b, t))
  }

  lemma InterpolateBetween(c1: Color, c2: Color, t: real)
    requires ValidColor(c1) && ValidColor(c2) && 0.0 <= t <= 1.0
    ensures ColorBetween(Interpolate(c1, c2, t), c1, c2)
    ensures ValidColor(Interpolate(c1, c2, t))
    ensures t == 0.0 ==> Interpolate(c1, c2, t) == c1
  {
    MixWithin(c1.r, c2.r, t);
    MixWithin(c1.g, c2.g, t);
    MixWithin(c1.b, c2.b, t);
  }

  /** The position of `value` on the scale `(lo, hi)`: 0.5 when the limits are
      equal, otherwise `(value - lo) / (hi - lo)`. */
  function ScalePosition(value: real, lo: real, hi: real): (t: real)
    ensures lo == hi ==> t == 0.5
    ensures lo < hi && lo <= value <= hi ==> 0.0 <= t <= 1.0
    ensures lo != hi && value == lo ==> t == 0.0
    ensures lo != hi && value == hi ==> t == 1.0
  {
    if lo == hi then 0.5
    else
      if lo < hi && lo <= value <= hi then
        UnitQuotient(value - lo, hi - lo);
        (value - lo) / (hi - lo)
      else (value - lo) / (hi - lo)
  }

  /** A quotient of a part by its whole lies in [0, 1]. */
  lemma UnitQuotient(x: real, d: real)
    requires 0.0 <= x <= d && d > 0.0
    ensures 0.0 <= x / d <= 1.0
    ensures x == 0.0 ==> x / d == 0.0
    ensures x == d ==> x / d == 1.0
  {
    var q := x / d;
    assert q * d == x;
    if q > 1.0 { assert q * d > d; }
  }

  /** The colour at position `t` of the gradient: the single colour of a
      one-colour gradient, the last colour once `int(t * n) >= n` (n = stops - 1),
      else the interpolation between stops `index` and `index + 1` by the
      fractional part. A negative `index` indexes from the end as a Python list
      does; one outside the list raises IndexError. */
  function ColorAt(colors: seq<Color>, t: real): (r: Result<Color>)
    ensures |colors| == 1 ==> r == Ok(colors[0])
    ensures |colors| == 0 ==> r.Err?
    ensures |colors| > 1 && Trunc(t * (|colors| - 1) as real) >= |colors| - 1 ==> r == Ok(colors[|colors| - 1])
  {
    if |colors| == 1 then Ok(colors[0])
    else
      var n := |colors| - 1;
      var scaled := t * n as real;
      var index := Trunc(scaled);
      var frac := scaled - index as real;
      if index >= n then
        if |colors| == 0 then Err("IndexError") else Ok(colors[|colors| - 1])
      else
        match (WrapIndex(|colors|, index), WrapIndex(|colors|, index + 1))
        case (Some(i), Some(j)) => Ok(Interpolate(colors[i], colors[j], frac))
        case _ => Err("IndexError")
  }

  /** The stop index and fraction for a position in [0, 1] on `n` segments. */
  lemma SegmentOf(t: real, n: nat)
    requires 0.0 <= t <= 1.0 && n >= 1
    ensures 0 <= Trunc(t * n as real) <= n
    ensures 0.0 <= t * n as real - Trunc(t * n as real) as real <= 1.0
    ensures t == 0.0 ==> Trunc(t * n as real) == 0 && t * n as real - Trunc(t * n as real) as real == 0.0
    ensures t == 1.0 ==> Trunc(t * n as real) == n
  {
    ScaleDown(n as real, t);
  }

  /** Below the last stop, the lookup interpolates between the stop it falls on
      and the next one. */
  lemma InteriorSegment(colors: seq<Color>, t: real, index: int, frac: real)
    requires |colors| > 1
    requires index == Trunc(t * (|colors| - 1) as real) && frac == t * (|colors| - 1) as real - index as real
    requires 0 <= index < |colors| - 1
    ensures ColorAt(colors, t) == Ok(Interpolate(colors[index], colors[index + 1], frac))
  {
    assert WrapIndex(|colors|, index) == Some(index);
    assert WrapIndex(|colors|, index + 1) == Some(index + 1);
  }

  /** Inside [0, 1] the lookup never fails: the colour is the first stop at
      t = 0, and otherwise lies between two adjacent stops or is the last one. */
  lemma ColorAtInRange(colors: seq<Color>, t: real)
    requires |colors| >= 1 && 0.0 <= t <= 1.0
    requires forall i :: 0 <= i < |colors| ==> ValidColor(colors[i])
    ensures ColorAt(colors, t).Ok?
    ensures ValidColor(ColorAt(colors, t).value)
    ensures t == 0.0 ==> ColorAt(colors, t) == Ok(colors[0])
    ensures t == 1.0 ==> ColorAt(colors, t) == Ok(colors[|colors| - 1])
    ensures ColorAt(colors, t).value == colors[|colors| - 1] ||
            exists k :: 0 <= k < |colors| - 1 && ColorBetween(ColorAt(colors, t).value, colors[k], colors[k + 1])
  {
    if |colors| > 1 {
      var n := |colors| - 1;
      SegmentOf(t, n);
      var index := Trunc(t * n as real);
      var frac := t * n as real - index as real;
      if index < n {
        InteriorSegment(colors, t, index, frac);
        InterpolateBetween(colors[index], colors[index + 1], frac);
        assert ColorBetween(ColorAt(colors, t).value, colors[index], colors[index + 1]);
      }
    }
  }

  /** A value well below the low limit wraps round to the top of the gradient:
      on a two-colour gradient, `t = -1` selects stop -1 (the last colour) with
      fraction 0. */
  lemma BelowRangeWraps(c1: Color, c2: Color)
    requires ValidColor(c1) && ValidColor(c2)
    ensures ColorAt([c1, c2], -1.0) == Ok(c2)
    ensures ColorAt([c1, c2], -3.5).Err?
  {
    assert Trunc(-1.0) == -1;
    assert Trunc(-3.5) == -3;
    InterpolateBetween(c2, c1, 0.0);
  }

  /** `get_color_from_gradient`: the value's position on the scale, then the
      gradient colour there. */
  function ColorFromGradient(colors: seq<Color>, value: real, limits: (real, real)): (r: Result<Color>)
    ensures limits.0 == limits.1 ==> r == ColorAt(colors, 0.5)
    ensures |colors| == 1 ==> r == Ok(colors[0])
  {
    ColorAt(colors, ScalePosition(value, limits.0, limits.1))
  }

  /** On a proper scale the low limit shows the first colour, the high limit the
      last, and anything between is a valid colour between two adjacent stops. */
  lemma GradientEnds(colors: seq<Color>, value: real, lo: real, hi: real)
    requires |colors| >= 1 && lo < hi && lo <= value <= hi
    requires forall i :: 0 <= i < |colors| ==> ValidColor(colors[i])
    ensures ColorFromGradient(colors, value, (lo, hi)).Ok?
    ensures ValidColor(ColorFromGradient(colors, value, (lo, hi)).value)
    ensures value == lo ==> ColorFromGradient(colors, value, (lo, hi)) == Ok(colors[0])
    ensures value == hi ==> ColorFromGradient(colors, value, (lo, hi)) == Ok(colors[|colors| - 1])
  {
    ColorAtInRange(colors, ScalePosition(value, lo, hi));
  }

  // ---------------------------------------------------------------------------
  // Simulation results as the editor sees them.

  /** One room's result table: a time index and one column per species, every
      column as long as the index. */
  datatype RawFrame = RawFrame(index: seq<real>, columns: map<string, seq<real>>)

  type Frame = f: RawFrame | forall c :: c in f.columns ==> |f.columns[c]| == |f.index|
    witness RawFrame([], map[])

  /** The scene's results: room name to table, in dictionary order. */
  type Results = seq<(string, Frame)>

  /** `results[name]`: the table of the first room with that name, or None where
      the dictionary raises KeyError. */
  function Lookup(results: Results, name: string): (r: Option<Frame>)
    ensures r.None? <==> forall i :: 0 <= i < |results| ==> results[i].0 != name
    ensures r.Some? ==> (name, r.value) in results
  {
    if |results| == 0 then None
    else if results[0].0 == name then Some(results[0].1)
    else Lookup(results[1..], name)
  }

  /** The smallest entry of a non-empty column, as `min()` returns it. */
  function SeqMin(s: seq<real>): (m: real)
    requires |s| > 0
    ensures m in s && forall x :: x in s ==> m <= x
  {
    if |s| == 1 then s[0]
    else
      var rest := SeqMin(s[1..]);
      assert forall x :: x in s ==> x == s[0] || x in s[1..];
      if s[0] <= rest then s[0] else rest
  }

  /** The largest entry of a non-empty column, as `max()` returns it. */
  function SeqMax(s: seq<real>): (m: real)
    requires |s| > 0
    ensures m in s && forall x :: x in s ==> x <= m
  {
    if |s| == 1 then s[0]
    else
      var rest := SeqMax(s[1..]);
      assert forall x :: x in s ==> x == s[0] || x in s[1..];
      if s[0] >= rest then s[0] else rest
  }

  /** The species column of a room's table, empty when the table has none. */
  function Column(f: Frame, species: string): seq<real>
  {
    if species in f.columns then f.columns[species] else []
  }

  /** The room has a non-empty column for the species. */
  predicate HasData(f: Frame, species: string)
  {
    species in f.columns && |f.columns[species]| > 0
  }

  /** Where the generator `min(results[species]) for each room` stops: the first
      room, in dictionary order, lacking the column raises KeyError; one with an
      empty column raises ValueError. None when every room has data. */
  function FirstFailure(results: Results, species: string): (e: Option<string>)
    ensures e.None? <==> forall i :: 0 <= i < |results| ==> HasData(results[i].1, species)
    ensures e.Some? ==> e.value == "KeyError" || e.value == "ValueError"
  {
    if |results| == 0 then None
    else if species !in results[0].1.columns then Some("KeyError")
    else if |results[0].1.columns[species]| == 0 then Some("ValueError")
    else FirstFailure(results[1..], species)
  }

  /** The smallest value of the species over every room. */
  function MinAll(results: Results, species: string): (m: real)
    requires |results| > 0
    requires forall i :: 0 <= i < |results| ==> HasData(results[i].1, species)
    ensures forall i, x :: 0 <= i < |results| && x in Column(results[i].1, species) ==> m <= x
    ensures exists i :: 0 <= i < |results| && m in Column(results[i].1, species)
  {
    assert HasData(results[0].1, species);
    var here := SeqMin(Column(results[0].1, species));
    if |results| == 1 then here
    else
      var rest := MinAll(results[1..], species);
      assert forall i :: 1 <= i < |results| ==> results[i] == results[1..][i - 1];
      if here <= rest then here else rest
  }

  /** The largest value of the species over every room. */
  function MaxAll(results: Results, species: string): (m: real)
    requires |results| > 0
    requires forall i :: 0 <= i < |results| ==> HasData(results[i].1, species)
    ensures forall i, x :: 0 <= i < |results| && x in Column(results[i].1, species) ==> x <= m
    ensures exists i :: 0 <= i < |results| && m in Column(results[i].1, species)
  {
    assert HasData(results[0].1, species);
    var here := SeqMax(Column(results[0].1, species));
    if |results| == 1 then here
    else
      var rest := MaxAll(results[1..], species);
      assert forall i :: 1 <= i < |results| ==> results[i] == results[1..][i - 1];
      if here >= rest then here else rest
  }

  /** The scale around `[mn, mx]` with 50% headroom each side: `(low, high)` with
      `high = mid + 1.5 * spread` and `low = max(mid - 1.5 * spread, 0)`, where
      mid and spread are the midpoint and half-width. */
  function Headroom(mn: real, mx: real): (r: (real, real))
  {
    var mid := (mx + mn) / 2.0;
    var spread := (mx - mn) / 2.0;
    var high := mid + spread * 1.5;
    var low := if mid - spread * 1.5 >= 0.0 then mid - spread * 1.5 else 0.0;
    (low, high)
  }

  /** Data in [10, 30] gets the scale (5, 35). */
  lemma HeadroomExample()
    ensures Headroom(10.0, 30.0) == (5.0, 35.0)
  {
  }

  /** Non-negative data always falls inside its scale, whose low end is never
      negative: each end lies a quarter of the data span beyond the data (half of
      the half-width), the low end clamped at 0. */
  lemma HeadroomContains(mn: real, mx: real)
    requires 0.0 <= mn <= mx
    ensures 0.0 <= Headroom(mn, mx).0 <= mn
    ensures mx <= Headroom(mn, mx).1
    ensures Headroom(mn, mx).1 - mx == (mx - mn) / 4.0
    ensures mn - (mx - mn) / 4.0 >= 0.0 ==> Headroom(mn, mx).0 == mn - (mx - mn) / 4.0
    ensures mn - (mx - mn) / 4.0 < 0.0 ==> Headroom(mn, mx).0 == 0.0
  {
  }

  /** `get_limits`: (0, 1) with no results, an empty species, or a room lacking
      the species; ValueError from `min()` with no rooms or an empty column;
      otherwise the headroom scale around the data. */
  function Limits(results: Option<Results>, species: string): (r: Result<(real, real)>)
    ensures results.None? || species == "" ==> r == Ok((0.0, 1.0))
    ensures results.Some? && species != "" && FirstFailure(results.value, species) == Some("KeyError") ==> r == Ok((0.0, 1.0))
    ensures results == Some([]) && species != "" ==> r.Err?
  {
    if results.None? || species == "" then Ok((0.0, 1.0))
    else
      match FirstFailure(results.value, species)
      case Some(e) => if e == "KeyError" then Ok((0.0, 1.0)) else Err(e)
      case None =>
        if |results.value| == 0 then Err("ValueError")
        else Ok(Headroom(MinAll(results.value, species), MaxAll(results.value, species)))
  }

  /** When every room has data for the species and the data are non-negative,
      the limits enclose every value of every room. */
  lemma LimitsEncloseData(results: Results, species: string)
    requires |results| > 0 && species != ""
    requires forall i :: 0 <= i < |results| ==> HasData(results[i].1, species)
    requires forall i, x :: 0 <= i < |results| && x in Column(results[i].1, species) ==> x >= 0.0
    ensures Limits(Some(results), species).Ok?
    ensures var (lo, hi) := Limits(Some(results), species).value;
      0.0 <= lo <= hi &&
      forall i, x :: 0 <= i < |results| && x in Column(results[i].1, species) ==> lo <= x <= hi
  {
    var mn := MinAll(results, species);
    var mx := MaxAll(results, species);
    var i :| 0 <= i < |results| && mn in Column(results[i].1, species);
    assert mn <= mx;
    HeadroomContains(mn, mx);
  }

  /** `min(index, key=lambda x: abs(x - time))`: the position of the first time
      nearest to `time`. */
  function Nearest(index: seq<real>, time: real): (k: nat)
    requires |index| > 0
    ensures k < |index|
    ensures forall j :: 0 <= j < |index| ==> Dist(index[k], time) <= Dist(index[j], time)
    ensures forall j :: 0 <= j < k ==> Dist(index[j], time) > Dist(index[k], time)
  {
    if |index| == 1 then 0
    else
      var k := Nearest(index[..|index| - 1], time);
      var last := |index| - 1;
      if Dist(index[last], time) < Dist(index[k], time) then last else k
  }

  function Dist(x: real, y: real): real
  {
    if x >= y then x - y else y - x
  }

  /** The position of the last entry equal to `x`: where a label lookup on a
      time index with repeated labels ends (`value.iloc[-1]`). */
  function LastIndexOf(s: seq<real>, x: real): (k: nat)
    requires x in s
    ensures k < |s| && s[k] == x
    ensures forall j :: k < j < |s| ==> s[j] != x
  {
    if s[|s| - 1] == x then |s| - 1
    else
      assert x in s[..|s| - 1] by {
        var i :| 0 <= i < |s| && s[i] == x;
        assert s[..|s| - 1][i] == x;
      }
      LastIndexOf(s[..|s| - 1], x)
  }

  /** The value plotted for a room at slider time `time`: the species column at
      the last row whose time is the first nearest one. */
  function ValueNear(f: Frame, species: string, time: real): (v: real)
    requires |f.index| > 0 && species in f.columns
    ensures exists k :: 0 <= k < |f.index| && v == f.columns[species][k] && f.index[k] == f.index[Nearest(f.index, time)]
  {
    var k := LastIndexOf(f.index, f.index[Nearest(f.index, time)]);
    f.columns[species][k]
  }

  /** With the nearest time stored once, its own row is read. */
  lemma ValueNearUnique(f: Frame, species: string, time: real)
    requires |f.index| > 0 && species in f.columns
    requires forall i, j :: 0 <= i < j < |f.index| ==> f.index[i] != f.index[j]
    ensures ValueNear(f, species, time) == f.columns[species][Nearest(f.index, time)]
  {
  }

  /** The brush colour `update_node_colors` gives the room named `name`: dark
      grey without results, without a species, or when the room or the species is
      missing from the results (KeyError); ValueError from `min()` on an empty
      index; otherwise the gradient colour of the nearest value on the current
      limits, with their own failures. */
  function NodeColor(results: Option<Results>, species: string, colors: seq<Color>, time: real, name: string): (r: Result<Color>)
    ensures results.None? || species == "" ==> r == Ok(DarkGray)
    ensures results.Some? && Lookup(results.value, name).None? ==> r == Ok(DarkGray)
    ensures (results.Some? && Lookup(results.value, name).Some? && |Lookup(results.value, name).value.index| > 0 &&
             species !in Lookup(results.value, name).value.columns) ==> r == Ok(DarkGray)
  {
    if results.None? || species == "" then Ok(DarkGray)
    else
      match Lookup(results.value, name)
      case None => Ok(DarkGray)
      case Some(f) =>
        if |f.index| == 0 then Err("ValueError")
        else if species !in f.columns then Ok(DarkGray)
        else
          var limits :- Limits(results, species);
          ColorFromGradient(colors, ValueNear(f, species, time), limits)
  }

  /** With non-negative data in every room, a room present in the results is
      coloured from the gradient without failing, and its colour is valid. */
  lemma NodeColorDefined(results: Results, species: string, gradient: string, time: real, name: string)
    requires |results| > 0 && species != ""
    requires forall i :: 0 <= i < |results| ==> HasData(results[i].1, species)
    requires forall i, x :: 0 <= i < |results| && x in Column(results[i].1, species) ==> x >= 0.0
    ensures NodeColor(Some(results), species, GradientColors(gradient), time, name).Ok?
    ensures ValidColor(NodeColor(Some(results), species, GradientColors(gradient), time, name).value)
  {
    match Lookup(results, name)
    case None =>
    case Some(f) =>
      var i :| 0 <= i < |results| && results[i] == (name, f);
      assert HasData(f, species);
      LimitsEncloseData(results, species);
      var (lo, hi) := Limits(Some(results), species).value;
      var v := ValueNear(f, species, time);
      var k :| 0 <= k < |f.index| && v == f.columns[species][k] && f.index[k] == f.index[Nearest(f.index, time)];
      assert v in Column(results[i].1, species);
      assert lo <= v <= hi;
      var colors := GradientColors(gradient);
      if lo == hi {
        ColorAtInRange(colors, 0.5);
      } else {
        GradientEnds(colors, v, lo, hi);
      }
  }

  // ---------------------------------------------------------------------------
  // Legend arithmetic.

  /** The stop position of colour `i` of `n`: `i / (n - 1)`, or `i / 1` when
      there is only one colour. */
  function StopPosition(i: nat, n: nat): real
  {
    i as real / (if n > 1 then (n - 1) as real else 1.0)
  }

  /** The legend's gradient stops: one per colour, in order, starting at 0, ending
      at 1 and strictly increasing. */
  function Stops(colors: seq<Color>): (s: seq<(real, Color)>)
    ensures |s| == |colors|
    ensures forall i :: 0 <= i < |s| ==> s[i].1 == colors[i]
  {
    seq(|colors|, i requires 0 <= i < |colors| => (StopPosition(i, |colors|), colors[i]))
  }

  lemma StopPositionBounds(i: nat, n: nat)
    requires i < n
    ensures 0.0 <= StopPosition(i, n) <= 1.0
    ensures i == 0 ==> StopPosition(i, n) == 0.0
    ensures n > 1 && i == n - 1 ==> StopPosition(i, n) == 1.0
  {
    if n > 1 {
      UnitQuotient(i as real, (n - 1) as real);
    }
  }

  lemma StopPositionIncreasing(i: nat, j: nat, n: nat)
    requires i < j < n
    ensures StopPosition(i, n) < StopPosition(j, n)
  {
    var d := (n - 1) as real;
    var qi := StopPosition(i, n);
    var qj := StopPosition(j, n);
    assert qi * d == i as real && qj * d == j as real;
    if qi >= qj {
      assert qi * d >= qj * d;
    }
  }

  /** The legend's stops start at 0, end at 1 when there are two or more colours,
      stay in [0, 1] and strictly increase, one per colour in order. */
  lemma StopsSpread(colors: seq<Color>)
    ensures forall i :: 0 <= i < |colors| ==> 0.0 <= Stops(colors)[i].0 <= 1.0
    ensures |colors| > 0 ==> Stops(colors)[0].0 == 0.0
    ensures |colors| > 1 ==> Stops(colors)[|colors| - 1].0 == 1.0
    ensures forall i, j :: 0 <= i < j < |colors| ==> Stops(colors)[i].0 < Stops(colors)[j].0
  {
    var n := |colors|;
    forall i | 0 <= i < n
      ensures 0.0 <= Stops(colors)[i].0 <= 1.0
    {
      StopPositionBounds(i, n);
    }
    if n > 0 { StopPositionBounds(0, n); StopPositionBounds(n - 1, n); }
    forall i, j | 0 <= i < j < n
      ensures Stops(colors)[i].0 < Stops(colors)[j].0
    {
      StopPositionIncreasing(i, j, n);
    }
  }

  /** The brightness adjustment `max(0, min(255, int(v * 1)))`. */
  function Brightness(v: int): (w: int)
    ensures 0 <= w <= 255
    ensures 0 <= v <= 255 ==> w == v
  {
    var x := Trunc(v as real * 1.0);
    if x > 255 then 255 else if x < 0 then 0 else x
  }

  /** The six tick labels under a bar starting at `left` of width `width`: tick
      `i` sits at `left + i * (width / 5)` and reads `lo + (i / 5) * (hi - lo)`. */
  function Ticks(left: real, width: real, lo: real, hi: real): (ts: seq<(real, real)>)
    ensures |ts| == 6
    ensures ts[0] == (left, lo) && ts[5] == (left + width, hi)
    ensures forall i :: 0 < i < 6 ==> ts[i].0 - ts[i - 1].0 == width / 5.0 && ts[i].1 - ts[i - 1].1 == (hi - lo) / 5.0
  {
    var step := width / 5.0;
    [(left + 0.0 * step, lo + (0.0 / 5.0) * (hi - lo)), (left + 1.0 * step, lo + (1.0 / 5.0) * (hi - lo)),
     (left + 2.0 * step, lo + (2.0 / 5.0) * (hi - lo)), (left + 3.0 * step, lo + (3.0 / 5.0) * (hi - lo)),
     (left + 4.0 * step, lo + (4.0 / 5.0) * (hi - lo)), (left + 5.0 * step, lo + (5.0 / 5.0) * (hi - lo))]
  }

  /** The legend's bar `QRectF(50, 10, width - 100, 15)`: its ticks run from
      x = 50 to x = width - 50. */
  lemma LegendBarTicks(widgetWidth: real, lo: real, hi: real)
    ensures Ticks(50.0, widgetWidth - 100.0, lo, hi)[0].0 == 50.0
    ensures Ticks(50.0, widgetWidth - 100.0, lo, hi)[5].0 == widgetWidth - 50.0
  {
  }
}
