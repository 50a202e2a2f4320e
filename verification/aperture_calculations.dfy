/** The discrete part of `ApertureCalculation`: which transport paths an
    aperture lies on and where, the sign and discharge-coefficient rules of
    the advection flow, the exchange category, and the split of the flux into
    the two directions. The wind component along a path uses a cosine and the
    advection magnitude a square root and a fractional power; both are
    parameters here (`cos`, `advect`). */
module ApertureCalculations {
  import opened Wrappers
  import opened Building
  import opened TransportPaths

  /** `_zero_advection_tolerance`. */
  const ZeroAdvectionTolerance: real := 0.00001

  /** `math.pi` (the double nearest to pi). */
  const Pi: real := 3.141592653589793

  /** The wind conditions: speed and direction in radians. */
  datatype Wind = Wind(speed: real, direction: real)

  /** `Fluxes`: the flows through an aperture in each direction. */
  datatype Fluxes = Fluxes(from1To2: real, from2To1: real)

  /** `transport_path_contains_room`: some aperture of the route has `room`
      as its origin or its destination. */
  function ContainsRoom(room: Place, route: seq<Participation>): (r: bool)
    ensures r <==> exists i :: (0 <= i < |route| &&
      (Room(route[i].aperture.origin) == room || route[i].aperture.destination == room))
  {
    if |route| == 0 then false
    else if Room(route[0].aperture.origin) == room || route[0].aperture.destination == room then true
    else
      assert forall i :: 1 <= i < |route| ==> route[i] == route[1..][i - 1];
      ContainsRoom(room, route[1..])
  }

  /** `room_has_outdoor_aperture`: some aperture leads from `room` outdoors. */
  function HasOutdoorAperture(room: Place, apertures: seq<Aperture>): (r: bool)
    ensures r <==> exists i :: 0 <= i < |apertures| && Room(apertures[i].origin) == room && IsOutdoor(apertures[i])
  {
    if |apertures| == 0 then false
    else if Room(apertures[0].origin) == room && IsOutdoor(apertures[0]) then true
    else
      assert forall i :: 1 <= i < |apertures| ==> apertures[i] == apertures[1..][i - 1];
      HasOutdoorAperture(room, apertures[1..])
  }

  /** A room that is only ever a destination has no outdoor aperture. */
  lemma DestinationOnlyNotOutdoor(room: Place, apertures: seq<Aperture>)
    requires forall i :: 0 <= i < |apertures| ==> Room(apertures[i].origin) != room
    ensures !HasOutdoorAperture(room, apertures)
  {
  }

  /** The offsets table of `transport_path_angle_in_radians`, in quarter
      turns of pi/4 each; None for every other pair. */
  function QuarterOffset(start: Place, end: Place): Option<int>
  {
    match (start, end)
    case (Outside(Front), Outside(Back)) => Some(4)
    case (Outside(Front), Outside(Left)) => Some(-3)
    case (Outside(Front), Outside(Right)) => Some(3)
    case (Outside(Back), Outside(Front)) => Some(0)
    case (Outside(Back), Outside(Left)) => Some(-1)
    case (Outside(Back), Outside(Right)) => Some(1)
    case (Outside(Left), Outside(Front)) => Some(1)
    case (Outside(Left), Outside(Back)) => Some(3)
    case (Outside(Left), Outside(Right)) => Some(2)
    case (Outside(Right), Outside(Front)) => Some(-1)
    case (Outside(Right), Outside(Back)) => Some(-3)
    case (Outside(Right), Outside(Left)) => Some(-2)
    case _ => None
  }

  /** The four sides a path can join. */
  predicate Horizontal(p: Place)
  {
    p == Outside(Front) || p == Outside(Back) || p == Outside(Left) || p == Outside(Right)
  }

  /** The table covers exactly the twelve ordered pairs of distinct sides;
      every offset lies within a half turn either way; and swapping start and
      end moves the offset by a half turn. */
  lemma OffsetTable(start: Place, end: Place)
    ensures QuarterOffset(start, end).Some? <==> Horizontal(start) && Horizontal(end) && start != end
    ensures QuarterOffset(start, end).Some? ==> -4 <= QuarterOffset(start, end).value <= 4
    ensures QuarterOffset(start, end).Some? ==>
      QuarterOffset(end, start).Some? &&
      (QuarterOffset(start, end).value - QuarterOffset(end, start).value == 4 ||
       QuarterOffset(start, end).value - QuarterOffset(end, start).value == -4)
  {
  }

  /** `transport_path_angle_in_radians`: the building direction plus the
      pair's offset; ValueError for any other pair. */
  function PathAngle(t: TransportPath, buildingDirection: real): (r: Result<real>)
    ensures r.Ok? <==> Horizontal(t.start) && Horizontal(t.end) && t.start != t.end
    ensures r.Ok? ==> exists k :: -4 <= k <= 4 && r.value == buildingDirection + QuarterTurns(k)
  {
    OffsetTable(t.start, t.end);
    match QuarterOffset(t.start, t.end)
    case None => Err("Invalid direction transition")
    case Some(k) => Ok(buildingDirection + QuarterTurns(k))
  }

  /** `k` quarter turns of pi/4 each, in radians. */
  function QuarterTurns(k: int): real
  {
    (k as real) * Pi / 4.0
  }

  /** A back-to-front path points along the building direction; a
      front-to-back one points the opposite way. */
  lemma BackFrontAngle(route: seq<Participation>, buildingDirection: real)
    ensures PathAngle(TransportPath(Outside(Back), Outside(Front), route), buildingDirection) == Ok(buildingDirection)
    ensures PathAngle(TransportPath(Outside(Front), Outside(Back), route), buildingDirection) == Ok(buildingDirection + Pi)
  {
  }

  /** `transport_path_windspeed`: the wind's component along the path. */
  function PathWindspeed(t: TransportPath, wind: Wind, buildingDirection: real, cos: real -> real): (r: Result<real>)
    ensures r.Ok? <==> PathAngle(t, buildingDirection).Ok?
    ensures r.Ok? ==> r.value == wind.speed * cos(wind.direction - PathAngle(t, buildingDirection).value)
  {
    var angle :- PathAngle(t, buildingDirection);
    Ok(wind.speed * cos(wind.direction - angle))
  }

  /** `is_room_cross_ventilated`: the first path through the room whose wind
      component exceeds the tolerance decides; the angle error of a path
      through the room met before that propagates. */
  function CrossVentilated(room: Place, paths: seq<TransportPath>, wind: Wind, buildingDirection: real, cos: real -> real): (r: Result<bool>)
    ensures r == Ok(true) ==> exists i :: (0 <= i < |paths| && ContainsRoom(room, paths[i].route) &&
      Beyond(PathWindspeed(paths[i], wind, buildingDirection, cos)))
    ensures r == Ok(false) ==> forall i :: 0 <= i < |paths| && ContainsRoom(room, paths[i].route) ==>
      Within(PathWindspeed(paths[i], wind, buildingDirection, cos))
    ensures (forall i :: 0 <= i < |paths| ==> PathAngle(paths[i], buildingDirection).Ok?) ==> r.Ok?
  {
    if |paths| == 0 then Ok(false)
    else
      assert forall i :: 1 <= i < |paths| ==> paths[i] == paths[1..][i - 1];
      if !ContainsRoom(room, paths[0].route) then CrossVentilated(room, paths[1..], wind, buildingDirection, cos)
      else
        var w :- PathWindspeed(paths[0], wind, buildingDirection, cos);
        if w > ZeroAdvectionTolerance || w < -ZeroAdvectionTolerance then Ok(true)
        else CrossVentilated(room, paths[1..], wind, buildingDirection, cos)
  }

  /** A wind component computed and beyond the tolerance either way. */
  predicate Beyond(w: Result<real>)
  {
    w.Ok? && (w.value > ZeroAdvectionTolerance || w.value < -ZeroAdvectionTolerance)
  }

  /** A wind component computed and within the tolerance. */
  predicate Within(w: Result<real>)
  {
    w.Ok? && -ZeroAdvectionTolerance <= w.value <= ZeroAdvectionTolerance
  }

  /** `flow_exchange`: every known category gives no exchange flow yet. */
  function FlowExchange(category: int): (r: Result<real>)
    ensures r.Ok? <==> 1 <= category <= 4
    ensures r.Ok? ==> r.value == 0.0
  {
    if category == 1 then Ok(0.0)
    else if category == 2 then Ok(0.0)
    else if category == 3 then Ok(0.0)
    else if category == 4 then Ok(0.0)
    else Err("unknown category")
  }

  /** `Contribution`: a path the aperture lies on, whether the path crosses
      it reversed, and how far down the path it sits (0 first, 1 last). */
  datatype Contribution = Contribution(path: TransportPath, reversed: bool, position: real)

  /** The contributions from positions `..n` of a route of at least two
      apertures. */
  function Positions(a: Aperture, t: TransportPath, n: nat): seq<Contribution>
    requires |t.route| >= 2 && n <= |t.route|
  {
    if n == 0 then []
    else
      Positions(a, t, n - 1) +
      (if t.route[n - 1].aperture == a
       then [Contribution(t, t.route[n - 1].reversed, (n - 1) as real / (|t.route| - 1) as real)]
       else [])
  }

  /** The contributions of one path: the position divides by one less than
      the route length, so a one-aperture route through the aperture raises
      ZeroDivisionError. */
  function PathContributions(a: Aperture, t: TransportPath): Result<seq<Contribution>>
  {
    if |t.route| >= 2 then Ok(Positions(a, t, |t.route|))
    else if |t.route| == 1 && t.route[0].aperture == a then Err("ZeroDivisionError")
    else Ok([])
  }

  /** The contributions of the first `n` paths, path after path. */
  function Contributions(a: Aperture, paths: seq<TransportPath>, n: nat): Result<seq<Contribution>>
    requires n <= |paths|
  {
    if n == 0 then Ok([])
    else
      var before :- Contributions(a, paths, n - 1);
      var here :- PathContributions(a, paths[n - 1]);
      Ok(before + here)
  }

  /** Each contribution marks one crossing of the aperture: it names its path,
      carries that crossing's reversed flag, and lies between 0 and 1. */
  lemma {:induction false} PositionsFaithful(a: Aperture, t: TransportPath, n: nat)
    requires |t.route| >= 2 && n <= |t.route|
    ensures |Positions(a, t, n)| == |set i | 0 <= i < n && t.route[i].aperture == a|
    ensures forall c :: c in Positions(a, t, n) ==>
      c.path == t && 0.0 <= c.position <= 1.0 &&
      exists i :: 0 <= i < n && t.route[i].aperture == a && t.route[i].reversed == c.reversed &&
        c.position == i as real / (|t.route| - 1) as real
  {
    if n > 0 {
      PositionsFaithful(a, t, n - 1);
      var before := set i | 0 <= i < n - 1 && t.route[i].aperture == a;
      var now := set i | 0 <= i < n && t.route[i].aperture == a;
      if t.route[n - 1].aperture == a {
        assert now == before + {n - 1};
        UnitPosition(n - 1, |t.route| - 1);
      } else {
        assert now == before;
      }
    }
  }

  /** `i / d` for `0 <= i <= d` lies in [0, 1]. */
  lemma UnitPosition(i: nat, d: nat)
    requires 0 <= i <= d && d > 0
    ensures 0.0 <= i as real / d as real <= 1.0
  {
    var q := i as real / d as real;
    assert q * (d as real) == i as real;
  }

  /** Routes of at least two apertures, as `paths_through_building` yields,
      never raise. */
  lemma {:induction false} LongRoutesContribute(a: Aperture, paths: seq<TransportPath>, n: nat)
    requires n <= |paths| && forall i :: 0 <= i < |paths| ==> |paths[i].route| >= 2
    ensures Contributions(a, paths, n).Ok?
  {
    if n > 0 {
      LongRoutesContribute(a, paths, n - 1);
    }
  }

  /** The paths `paths_through_building` yields for a building whose
      apertures all join known places never make the constructor raise, and
      each has a wind angle. */
  lemma BuildingPathsUsable(rooms: seq<nat>, apertures: seq<Aperture>, a: Aperture, buildingDirection: real)
    requires forall i :: 0 <= i < |apertures| ==> Known(rooms, apertures[i])
    requires forall k :: 0 <= k < |Pairs| ==> Pairs[k].0 in Graph(rooms, apertures)
    ensures Contributions(a, PathsOfPairs(Graph(rooms, apertures), |Pairs|), |PathsOfPairs(Graph(rooms, apertures), |Pairs|)|).Ok?
    ensures forall t :: t in PathsOfPairs(Graph(rooms, apertures), |Pairs|) ==> PathAngle(t, buildingDirection).Ok?
  {
    var paths := PathsOfPairs(Graph(rooms, apertures), |Pairs|);
    forall t | t in paths
      ensures |t.route| >= 2 && PathAngle(t, buildingDirection).Ok?
    {
      BuildingPathsWellRouted(rooms, apertures, t);
    }
    assert forall i :: 0 <= i < |paths| ==> paths[i] in paths;
    LongRoutesContribute(a, paths, |paths|);
  }

  /** `_build_contributions`: a contribution for each occurrence of the
      aperture in each path, in order. */
  method BuildContributions(a: Aperture, paths: seq<TransportPath>) returns (r: Result<seq<Contribution>>)
    ensures r == Contributions(a, paths, |paths|)
  {
    var result: seq<Contribution> := [];
    for k := 0 to |paths|
      invariant Contributions(a, paths, k) == Ok(result)
    {
      var here := ContributionsAlong(a, paths[k]);
      if here.Err? {
        ContributionsErrorPersists(a, paths, k + 1, |paths|);
        return Err(here.msg);
      }
      result := result + here.value;
    }
    return Ok(result);
  }

  /** The inner loop of `_build_contributions`, over one path's route. */
  method ContributionsAlong(a: Aperture, tp: TransportPath) returns (r: Result<seq<Contribution>>)
    ensures r == PathContributions(a, tp)
  {
    var result: seq<Contribution> := [];
    for i := 0 to |tp.route|
      invariant |tp.route| >= 2 ==> result == Positions(a, tp, i)
      invariant |tp.route| < 2 ==> result == []
      invariant |tp.route| == 1 && i == 1 ==> tp.route[0].aperture != a
    {
      if tp.route[i].aperture == a {
        if |tp.route| == 1 {
          return Err("ZeroDivisionError");
        }
        result := result + [Contribution(tp, tp.route[i].reversed, i as real / (|tp.route| - 1) as real)];
      }
    }
    return Ok(result);
  }

  /** Once a path raises, every longer run raises the same way. */
  lemma {:induction false} ContributionsErrorPersists(a: Aperture, paths: seq<TransportPath>, m: nat, n: nat)
    requires m <= n <= |paths|
    ensures Contributions(a, paths, m).Err? ==> Contributions(a, paths, n) == Contributions(a, paths, m)
  {
    if m < n {
      ContributionsErrorPersists(a, paths, m, n - 1);
    }
  }

  /** The sign of one contribution's flow: negative against the wind, and
      negative again when the path crosses the aperture reversed. */
  function FlowSign(pathWindspeed: real, reversed: bool): (s: real)
    ensures s == 1.0 || s == -1.0
    ensures s == -1.0 <==> (pathWindspeed < 0.0) != reversed
  {
    (if pathWindspeed < 0.0 then -1.0 else 1.0) * (if reversed then -1.0 else 1.0)
  }

  /** The position the discharge coefficient uses: unchanged when the wind
      blows along the path, measured from the other end otherwise. */
  function UpwindPosition(pathWindspeed: real, position: real): real
  {
    if pathWindspeed > 0.0 then position else 1.0 - position
  }

  /** The discharge coefficient `0.7 / (1 + position)`. */
  function Discharge(position: real): (cd: real)
    requires position > -1.0
  {
    0.7 / (1.0 + position)
  }

  /** For a position in [0, 1] the coefficient lies between 0.35 (last
      aperture) and 0.7 (first), and decreases down the path. */
  lemma DischargeBounds(p: real, q: real)
    requires 0.0 <= p <= q <= 1.0
    ensures 0.35 <= Discharge(q) <= Discharge(p) <= 0.7
    ensures Discharge(0.0) == 0.7 && Discharge(1.0) == 0.35
  {
    Shrinks(0.7, 1.0 + p, 1.0 + q);
    Shrinks(0.7, 1.0, 1.0 + p);
    Shrinks(0.7, 1.0 + q, 2.0);
  }

  /** Dividing by a larger positive number gives a smaller quotient. */
  lemma Shrinks(x: real, d: real, e: real)
    requires x > 0.0 && 0.0 < d <= e
    ensures x / e <= x / d
  {
    var qd := x / d;
    var qe := x / e;
    assert qd * d == x;
    assert qe * e == x;
    if qe > qd {
      assert qe * e >= qe * d;
      assert qe * d > qd * d;
    }
  }

  /** `2/air_density` with a zero density. */
  const DensityZeroError := "ZeroDivisionError: float division by zero"

  /** `math.sqrt(2/air_density)` with a negative density. */
  const DensityDomainError := "ValueError: math domain error"

  /** `flow_advection`: dividing by the air density and taking the square
      root of `2/air_density` fail before the magnitude `advect` is reached,
      so only a positive density gives a flow. */
  function FlowAdvection(w: real, area: real, discharge: real, cp: (real, real), density: real,
                         advect: (real, real, real, (real, real), real) -> real): (r: Result<real>)
    ensures r.Ok? <==> density > 0.0
    ensures density == 0.0 ==> r == Err(DensityZeroError)
    ensures density < 0.0 ==> r == Err(DensityDomainError)
  {
    if density == 0.0 then Err(DensityZeroError)
    else if density < 0.0 then Err(DensityDomainError)
    else Ok(advect(w, area, discharge, cp, density))
  }

  /** One contribution's signed share of the advection flow. */
  function Term(c: Contribution, w: real, area: real, cp: (real, real), density: real,
                advect: (real, real, real, (real, real), real) -> real): Result<real>
    requires 0.0 <= c.position <= 1.0
  {
    var magnitude :- FlowAdvection(w, area, Discharge(UpwindPosition(w, c.position)), cp, density, advect);
    Ok(FlowSign(w, c.reversed) * magnitude)
  }

  /** One pass of the loop of `advection_flow_rate`: the contribution's
      share, signed by the wind direction along the path and the aperture's
      orientation on it. */
  method SignedShare(c: Contribution, w: real, area: real, cp: (real, real), density: real,
                     advect: (real, real, real, (real, real), real) -> real) returns (term: Result<real>)
    requires 0.0 <= c.position <= 1.0
    ensures term == Term(c, w, area, cp, density, advect)
  {
    var position := if w > 0.0 then c.position else 1.0 - c.position;
    var pathWindDirectionSign := if w < 0.0 then -1.0 else 1.0;
    var apertureReversedSign := if c.reversed then -1.0 else 1.0;
    var sign := pathWindDirectionSign * apertureReversedSign;
    var discharge := 0.7 / (1.0 + position);
    assert discharge == Discharge(UpwindPosition(w, c.position));
    var magnitude := FlowAdvection(w, area, discharge, cp, density, advect);
    if magnitude.Err? {
      return Err(magnitude.msg);
    }
    term := Ok(sign * magnitude.value);
  }

  /** Crossing the aperture the other way round negates its share. */
  lemma ReversedTermNegates(c: Contribution, w: real, area: real, cp: (real, real), density: real,
                            advect: (real, real, real, (real, real), real) -> real)
    requires 0.0 <= c.position <= 1.0
    ensures Term(c.(reversed := !c.reversed), w, area, cp, density, advect).Ok? <==> density > 0.0
    ensures Term(c, w, area, cp, density, advect).Ok? <==> density > 0.0
    ensures density > 0.0 ==>
      Term(c.(reversed := !c.reversed), w, area, cp, density, advect).value == -Term(c, w, area, cp, density, advect).value
  {
  }

  /** Every contribution lies in [0, 1] along its path. */
  predicate Placed(cs: seq<Contribution>)
  {
    forall i :: 0 <= i < |cs| ==> 0.0 <= cs[i].position <= 1.0
  }

  class ApertureCalculation {
    const aperture: Aperture
    const transportPaths: seq<TransportPath>
    const isOutdoorAperture: bool
    const hasRoomWithOutdoorAperture: bool
    const buildingDirection: real
    const airDensity: real
    const pressureCoefficients: (real, real)
    const contributions: seq<Contribution>

    /** The fields as the source's constructor sets them, from contributions
        already built. */
    constructor (a: Aperture, paths: seq<TransportPath>, allApertures: seq<Aperture>,
                 direction: real, density: real, cp: (real, real), cs: seq<Contribution>)
      requires Placed(cs)
      ensures aperture == a && transportPaths == paths && contributions == cs
      ensures isOutdoorAperture <==> a.destination.Outside?
      ensures hasRoomWithOutdoorAperture <==>
        HasOutdoorAperture(Room(a.origin), allApertures) || HasOutdoorAperture(a.destination, allApertures)
      ensures buildingDirection == direction && airDensity == density && pressureCoefficients == cp
      ensures Valid()
    {
      aperture := a;
      transportPaths := paths;
      isOutdoorAperture := a.destination.Outside?;
      hasRoomWithOutdoorAperture :=
        HasOutdoorAperture(Room(a.origin), allApertures) || HasOutdoorAperture(a.destination, allApertures);
      buildingDirection := direction;
      airDensity := density;
      pressureCoefficients := cp;
      contributions := cs;
    }

    predicate Valid()
    {
      Placed(contributions)
    }

    /** The wind component along contribution `i`'s path. */
    function WindAlong(i: nat, wind: Wind, cos: real -> real): Result<real>
      requires i < |contributions|
    {
      PathWindspeed(contributions[i].path, wind, buildingDirection, cos)
    }

    /** `has_advection_flow`: some contribution's path carries a wind
        component beyond the tolerance, checking paths in order. */
    method HasAdvectionFlow(wind: Wind, cos: real -> real) returns (r: Result<bool>)
      ensures r == Ok(true) ==> exists i :: 0 <= i < |contributions| && Beyond(WindAlong(i, wind, cos))
      ensures r == Ok(false) ==> forall i :: 0 <= i < |contributions| ==> Within(WindAlong(i, wind, cos))
      ensures r.Err? ==> exists i :: 0 <= i < |contributions| && WindAlong(i, wind, cos).Err?
    {
      for i := 0 to |contributions|
        invariant forall j :: 0 <= j < i ==> Within(WindAlong(j, wind, cos))
      {
        var value := WindAlong(i, wind, cos);
        if value.Err? {
          return Err(value.msg);
        }
        if value.value > ZeroAdvectionTolerance || value.value < -ZeroAdvectionTolerance {
          return Ok(true);
        }
      }
      return Ok(false);
    }

    /** The advection flow of the first `n` contributions. */
    function AdvectionSum(n: nat, wind: Wind, cos: real -> real, advect: (real, real, real, (real, real), real) -> real): Result<real>
      requires Valid() && n <= |contributions|
    {
      if n == 0 then Ok(0.0)
      else
        var before :- AdvectionSum(n - 1, wind, cos, advect);
        var w :- WindAlong(n - 1, wind, cos);
        var term :- Term(contributions[n - 1], w, aperture.area, pressureCoefficients, airDensity, advect);
        Ok(before + term)
    }

    /** Once a contribution fails, every longer sum fails the same way. */
    lemma {:induction false} SumErrorPersists(m: nat, n: nat, wind: Wind, cos: real -> real,
                                              advect: (real, real, real, (real, real), real) -> real)
      requires Valid() && m <= n <= |contributions|
      ensures AdvectionSum(m, wind, cos, advect).Err? ==> AdvectionSum(n, wind, cos, advect) == AdvectionSum(m, wind, cos, advect)
    {
      if m < n {
        SumErrorPersists(m, n - 1, wind, cos, advect);
      }
    }

    /** The advection sum exists exactly when every path has an angle and,
        unless there is no contribution at all, the air density is positive. */
    lemma {:induction false} AdvectionSumOk(n: nat, wind: Wind, cos: real -> real,
                                            advect: (real, real, real, (real, real), real) -> real)
      requires Valid() && n <= |contributions|
      ensures AdvectionSum(n, wind, cos, advect).Ok? <==>
        (n == 0 || airDensity > 0.0) && forall i :: 0 <= i < n ==> WindAlong(i, wind, cos).Ok?
    {
      if n > 0 {
        AdvectionSumOk(n - 1, wind, cos, advect);
        AdvectionSumStep(n, wind, cos, advect);
        if AdvectionSum(n, wind, cos, advect).Ok? {
          forall i | 0 <= i < n
            ensures WindAlong(i, wind, cos).Ok?
          {
            if i < n - 1 {
              assert AdvectionSum(n - 1, wind, cos, advect).Ok?;
            }
          }
        }
      }
    }

    /** The sum of `n` contributions exists exactly when that of the first
        `n - 1` does, the last path has an angle and the density is positive. */
    lemma AdvectionSumStep(n: nat, wind: Wind, cos: real -> real,
                           advect: (real, real, real, (real, real), real) -> real)
      requires Valid() && 0 < n <= |contributions|
      ensures AdvectionSum(n, wind, cos, advect).Ok? <==>
        AdvectionSum(n - 1, wind, cos, advect).Ok? && WindAlong(n - 1, wind, cos).Ok? && airDensity > 0.0
    {
      var before := AdvectionSum(n - 1, wind, cos, advect);
      var w := WindAlong(n - 1, wind, cos);
      if before.Ok? && w.Ok? {
        var term := Term(contributions[n - 1], w.value, aperture.area, pressureCoefficients, airDensity, advect);
        assert term.Ok? <==> airDensity > 0.0;
      }
    }

    /** With a zero air density and a first path that has an angle, the
        advection sum fails with the division by zero. */
    lemma DensityZeroFails(n: nat, wind: Wind, cos: real -> real,
                           advect: (real, real, real, (real, real), real) -> real)
      requires Valid() && n <= |contributions|
      ensures 0 < n && airDensity == 0.0 && WindAlong(0, wind, cos).Ok? ==>
        AdvectionSum(n, wind, cos, advect) == Err(DensityZeroError)
    {
      if 0 < n && airDensity == 0.0 && WindAlong(0, wind, cos).Ok? {
        assert AdvectionSum(1, wind, cos, advect) == Err(DensityZeroError);
        SumErrorPersists(1, n, wind, cos, advect);
      }
    }

    /** `advection_flow_rate`: the signed shares of all contributions added up. */
    method AdvectionFlowRate(wind: Wind, cos: real -> real, advect: (real, real, real, (real, real), real) -> real)
      returns (r: Result<real>)
      requires Valid()
      ensures r == AdvectionSum(|contributions|, wind, cos, advect)
      ensures r.Ok? <==>
        (|contributions| == 0 || airDensity > 0.0) && forall i :: 0 <= i < |contributions| ==> WindAlong(i, wind, cos).Ok?
      ensures 0 < |contributions| && airDensity == 0.0 && WindAlong(0, wind, cos).Ok? ==> r == Err(DensityZeroError)
    {
      AdvectionSumOk(|contributions|, wind, cos, advect);
      DensityZeroFails(|contributions|, wind, cos, advect);
      var sum := 0.0;
      for i := 0 to |contributions|
        invariant AdvectionSum(i, wind, cos, advect) == Ok(sum)
      {
        var next := AdvectionStep(i, wind, cos, advect, sum);
        if next.Err? {
          SumErrorPersists(i + 1, |contributions|, wind, cos, advect);
          return next;
        }
        sum := next.value;
      }
      return Ok(sum);
    }

    /** One pass of the loop of `advection_flow_rate`: the wind along path `i`,
        whose angle error propagates, then its signed share, whose density
        error propagates, added to the running sum. */
    method AdvectionStep(i: nat, wind: Wind, cos: real -> real, advect: (real, real, real, (real, real), real) -> real,
                         sum: real) returns (next: Result<real>)
      requires Valid() && i < |contributions| && AdvectionSum(i, wind, cos, advect) == Ok(sum)
      ensures next == AdvectionSum(i + 1, wind, cos, advect)
    {
      var w := WindAlong(i, wind, cos);
      if w.Err? {
        return Err(w.msg);
      }
      var term := SignedShare(contributions[i], w.value, aperture.area, pressureCoefficients, airDensity, advect);
      if term.Err? {
        return Err(term.msg);
      }
      return Ok(sum + term.value);
    }

    /** `exchange_category`: 1 when either end's room is cross-ventilated,
        else 2 for an outdoor aperture, else 3 when an end has an outdoor
        aperture, else 4. */
    function ExchangeCategory(wind: Wind, cos: real -> real): (r: Result<int>)
      ensures r.Ok? ==> 1 <= r.value <= 4
      ensures r == Ok(1) <==>
        CrossVentilated(Room(aperture.origin), transportPaths, wind, buildingDirection, cos) == Ok(true) ||
        (CrossVentilated(Room(aperture.origin), transportPaths, wind, buildingDirection, cos) == Ok(false) &&
         CrossVentilated(aperture.destination, transportPaths, wind, buildingDirection, cos) == Ok(true))
      ensures r.Ok? && r.value > 1 ==>
        CrossVentilated(Room(aperture.origin), transportPaths, wind, buildingDirection, cos) == Ok(false) &&
        CrossVentilated(aperture.destination, transportPaths, wind, buildingDirection, cos) == Ok(false) &&
        (r.value == 2 <==> isOutdoorAperture) &&
        (r.value == 3 <==> !isOutdoorAperture && hasRoomWithOutdoorAperture)
    {
      var first :- CrossVentilated(Room(aperture.origin), transportPaths, wind, buildingDirection, cos);
      if first then Ok(1)
      else
        var second :- CrossVentilated(aperture.destination, transportPaths, wind, buildingDirection, cos);
        if second then Ok(1)
        else if isOutdoorAperture then Ok(2)
        else if hasRoomWithOutdoorAperture then Ok(3)
        else Ok(4)
    }

    /** `exchange_flow_rate`: the category's exchange flow. */
    function ExchangeFlowRate(wind: Wind, cos: real -> real): (r: Result<real>)
      ensures r.Ok? <==> ExchangeCategory(wind, cos).Ok?
      ensures r.Ok? ==> r.value == 0.0
    {
      var category :- ExchangeCategory(wind, cos);
      FlowExchange(category)
    }

    /** `trans_matrix_contributions`: advection beyond the tolerance flows
        one way only; otherwise the exchange flow goes both ways. */
    method TransMatrixContributions(wind: Wind, cos: real -> real, advect: (real, real, real, (real, real), real) -> real)
      returns (r: Result<Fluxes>)
      requires Valid()
      ensures AdvectionSum(|contributions|, wind, cos, advect).Err? ==> r == Err(AdvectionSum(|contributions|, wind, cos, advect).msg)
      ensures 0 < |contributions| && airDensity == 0.0 && WindAlong(0, wind, cos).Ok? ==> r == Err(DensityZeroError)
      ensures r.Ok? ==> AdvectionSum(|contributions|, wind, cos, advect).Ok?
      ensures r.Ok? ==> r.value.from1To2 >= 0.0 && r.value.from2To1 >= 0.0
      ensures r.Ok? ==> r.value.from1To2 == 0.0 || r.value.from2To1 == 0.0
      ensures r.Ok? && AdvectionSum(|contributions|, wind, cos, advect).value > ZeroAdvectionTolerance ==>
        r.value == Fluxes(AdvectionSum(|contributions|, wind, cos, advect).value, 0.0)
      ensures r.Ok? && AdvectionSum(|contributions|, wind, cos, advect).value < -ZeroAdvectionTolerance ==>
        r.value == Fluxes(0.0, -AdvectionSum(|contributions|, wind, cos, advect).value)
      ensures Within(AdvectionSum(|contributions|, wind, cos, advect)) ==>
        (r.Ok? <==> ExchangeCategory(wind, cos).Ok?) && (r.Ok? ==> r.value == Fluxes(0.0, 0.0))
    {
      var advection := AdvectionFlowRate(wind, cos, advect);
      if advection.Err? {
        return Err(advection.msg);
      }
      if advection.value > ZeroAdvectionTolerance {
        return Ok(Fluxes(advection.value, 0.0));
      } else if advection.value < -ZeroAdvectionTolerance {
        return Ok(Fluxes(0.0, -advection.value));
      } else {
        var exchange := ExchangeFlowRate(wind, cos);
        if exchange.Err? {
          return Err(exchange.msg);
        }
        return Ok(Fluxes(exchange.value, exchange.value));
      }
    }
  }

  /** The constructor: contributions are built first (ZeroDivisionError for a
      one-aperture route through the aperture), then pressure coefficients
      with the first below the second are rejected. */
  method NewApertureCalculation(a: Aperture, paths: seq<TransportPath>, allApertures: seq<Aperture>,
                                direction: real, density: real, cp: (real, real))
    returns (r: Result<ApertureCalculation>)
    ensures Contributions(a, paths, |paths|).Err? ==> r == Err("ZeroDivisionError")
    ensures Contributions(a, paths, |paths|).Ok? && cp.0 < cp.1 ==>
      r == Err("The higher building pressure coefficient should come first")
    ensures r.Ok? ==> Contributions(a, paths, |paths|).Ok? && cp.0 >= cp.1
    ensures r.Ok? ==> (fresh(r.value) && r.value.Valid() && r.value.aperture == a &&
      r.value.contributions == Contributions(a, paths, |paths|).value)
  {
    var cs := BuildContributions(a, paths);
    if cs.Err? {
      ContributionsError(a, paths, |paths|);
      return Err(cs.msg);
    }
    ContributionsPlaced(a, paths, |paths|);
    var created := new ApertureCalculation(a, paths, allApertures, direction, density, cp, cs.value);
    if cp.0 < cp.1 {
      return Err("The higher building pressure coefficient should come first");
    }
    return Ok(created);
  }

  lemma {:induction false} ContributionsError(a: Aperture, paths: seq<TransportPath>, n: nat)
    requires n <= |paths|
    ensures Contributions(a, paths, n).Err? ==> Contributions(a, paths, n).msg == "ZeroDivisionError"
  {
    if n > 0 {
      ContributionsError(a, paths, n - 1);
    }
  }

  lemma {:induction false} ContributionsPlaced(a: Aperture, paths: seq<TransportPath>, n: nat)
    requires n <= |paths|
    ensures Contributions(a, paths, n).Ok? ==> Placed(Contributions(a, paths, n).value)
  {
    if n > 0 {
      ContributionsPlaced(a, paths, n - 1);
      var t := paths[n - 1];
      if |t.route| >= 2 {
        PositionsFaithful(a, t, |t.route|);
        var ps := Positions(a, t, |t.route|);
        assert forall i :: 0 <= i < |ps| ==> ps[i] in ps;
      }
    }
  }
}
