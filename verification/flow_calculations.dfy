/** `ApertureFlowCalculator`: which variables of a room's state an aperture
    carries, and the concentration changes a flux through the aperture causes
    over one interval. Concentrations are keyed by variable name. */
module FlowCalculations {
  import opened Wrappers
  import opened PyOps
  import opened ApertureCalculations

  /** The patterns naming variables that are not carried between rooms. */
  datatype Pattern = Surface | Photolysis | Yield | Ratio | Deposition | Rate

  /** The order in which the patterns are tried. */
  const InPatterns: seq<Pattern> := [Surface, Photolysis, Yield, Ratio, Deposition, Rate]

  /** Constants, rate coefficients and other variables never carried. */
  const ReservedNames: seq<string> := [
    "ACRate", "cosx", "secx", "M", "temp", "H2O", "PI", "AV", "adults", "children", "O2", "N2", "H2",
    "saero", "OH_reactivity", "OH_production", "KDI", "K8I", "FC9", "NC13", "NCD", "FC12", "KMT14", "CNO3",
    "KMT05", "F17", "K140", "KFPAN", "KPPNI", "K20", "KMT06", "KCH3O2", "K7I", "NC14", "NCPPN", "F3", "K10I",
    "KRD", "KR10", "NC1", "K3I", "NC17", "K12I", "NC4", "K14I", "K150", "K200", "F20", "KMT16", "K160",
    "F19", "KR7", "FC2", "F16", "N19", "KR3", "KMT20", "KHOCL", "F13", "KC0", "KMT04", "KRPPN", "F9", "K130",
    "KMT10", "KR19", "KMT02", "K4I", "KMT01", "FC14", "KR14", "NC7", "K170", "KBPPN", "K190", "NC3", "K15I",
    "KR15", "KCI", "FCPPN", "F15", "FC4", "KR12", "KMT17", "KR13", "K298CH3O2", "K80", "KMT19", "FC15",
    "K90", "K17I", "NC", "K20I", "F4", "K4", "N20", "KNO3AL", "KROSEC", "KNO3", "CCLNO3", "K70", "F8",
    "KRO2HO2", "FC20", "K14ISOM1", "KMT09", "FC16", "FPPN", "KROPRIM", "F12", "K19I", "NC8", "FCD",
    "KRO2NO3", "KMT18", "NC12", "KMT07", "FC3", "KRC", "F1", "FCC", "KR16", "CCLHO", "KMT13", "F10", "K100",
    "K40", "KCLNO3", "FC7", "F7", "FC", "NC10", "KR2", "FC17", "CN2O5", "KR4", "FC8", "KMT11", "KMT15",
    "KAPNO", "K1I", "KBPAN", "NC9", "FC19", "KMT03", "K3", "K16I", "KR20", "KPPN0", "F2", "K10", "FC1",
    "KR1", "KMT08", "KAPHO2", "KMT12", "F14", "KR17", "FC13", "KR8", "K2I", "K2", "FC10", "KDEC", "KD0",
    "NC16", "K13I", "KR9", "KN2O5", "K30", "K1", "K9I", "KRO2NO", "K120", "FD", "NC2", "NC15"
  ]

  /** No line break in `s`: what `.` matches. */
  predicate NoBreak(s: string)
  {
    forall i :: 0 <= i < |s| ==> s[i] != '\n'
  }

  /** `re.match` of `.+SURF$`. */
  predicate SurfaceMatch(s: string)
  {
    (|s| >= 5 && s[|s| - 4..] == "SURF" && NoBreak(s[..|s| - 4])) ||
    (|s| >= 6 && s[|s| - 5..] == "SURF\n" && NoBreak(s[..|s| - 5]))
  }

  /** `re.match` of `.*OUT$`. */
  predicate OutdoorMatch(s: string)
  {
    (|s| >= 3 && s[|s| - 3..] == "OUT" && NoBreak(s[..|s| - 3])) ||
    (|s| >= 4 && s[|s| - 4..] == "OUT\n" && NoBreak(s[..|s| - 4]))
  }

  /** `re.match` of a literal prefix followed by `.+` (`followedByDigit`
      false) or by `\d+` (true). */
  predicate PrefixMatch(s: string, prefix: string, followedByDigit: bool)
  {
    |s| > |prefix| && s[..|prefix|] == prefix &&
    if followedByDigit then IsDecimal(s[|prefix|]) else s[|prefix|] != '\n'
  }

  /** `pattern.match(name)`. */
  predicate Matches(p: Pattern, name: string)
  {
    match p
    case Surface => SurfaceMatch(name)
    case Photolysis => PrefixMatch(name, "J", true)
    case Yield => PrefixMatch(name, "YIELD", false)
    case Ratio => PrefixMatch(name, "AV", false)
    case Deposition => PrefixMatch(name, "vd", false)
    case Rate => PrefixMatch(name, "r", true)
  }

  /** A variable that is never carried: it matches an in-pattern or is reserved. */
  predicate Excluded(name: string)
  {
    (exists k :: 0 <= k < |InPatterns| && Matches(InPatterns[k], name)) || name in ReservedNames
  }

  /** The inner loop over the patterns: the reserved test sits in the loop
      and runs at the first pattern that does not match, so the loop reports
      a match or a reserved name. */
  method IsExcluded(name: string) returns (matched: bool)
    ensures matched <==> Excluded(name)
  {
    matched := false;
    for j := 0 to |InPatterns|
      invariant !matched
      invariant forall k :: 0 <= k < j ==> !Matches(InPatterns[k], name)
      invariant j > 0 ==> name !in ReservedNames
    {
      if Matches(InPatterns[j], name) {
        matched := true;
        return;
      } else if name in ReservedNames {
        matched := true;
        return;
      }
    }
  }

  /** The indoor and outdoor lists of the first `n` variables. */
  function TransVars(all: seq<string>, n: nat): (r: (seq<string>, seq<string>))
    requires n <= |all|
  {
    if n == 0 then ([], [])
    else
      var (indoor, outdoor) := TransVars(all, n - 1);
      var name := all[n - 1];
      if Excluded(name) then (indoor, outdoor)
      else if OutdoorMatch(name) then (indoor, outdoor + [name])
      else (indoor + [name], outdoor)
  }

  function Filter(ys: seq<string>, keep: string -> bool): (xs: seq<string>)
    ensures |xs| <= |ys|
    ensures forall x :: x in xs <==> x in ys && keep(x)
  {
    if |ys| == 0 then []
    else Filter(ys[..|ys| - 1], keep) + (if keep(ys[|ys| - 1]) then [ys[|ys| - 1]] else [])
  }

  /** The indoor list holds, in order, the carried variables not matching
      `.*OUT$`; the outdoor list those matching it. So the two are disjoint,
      both are subsequences of the input, and each carried variable lands in
      exactly one of them. */
  lemma {:induction false} TransVarsSplit(all: seq<string>, n: nat)
    requires n <= |all|
    ensures TransVars(all, n).0 == Filter(all[..n], name => !Excluded(name) && !OutdoorMatch(name))
    ensures TransVars(all, n).1 == Filter(all[..n], name => !Excluded(name) && OutdoorMatch(name))
  {
    if n > 0 {
      TransVarsSplit(all, n - 1);
      assert all[..n][..n - 1] == all[..n - 1];
    }
  }

  /** Each variable of the input is excluded, indoor or outdoor, and only one
      of them. */
  lemma TransVarsPartition(all: seq<string>, name: string)
    requires name in all
    ensures !Excluded(name) <==> name in TransVars(all, |all|).0 || name in TransVars(all, |all|).1
    ensures !(name in TransVars(all, |all|).0 && name in TransVars(all, |all|).1)
    ensures name in TransVars(all, |all|).1 ==> OutdoorMatch(name)
  {
    TransVarsSplit(all, |all|);
    assert all[..|all|] == all;
  }

  /** An outdoor variable ends in "OUT" (or in "OUT" and a line break); an
      indoor variable without line breaks does not end in "OUT". */
  lemma OutSuffix(all: seq<string>, name: string)
    ensures name in TransVars(all, |all|).1 ==>
      |name| >= 3 && (name[|name| - 3..] == "OUT" || (|name| >= 4 && name[|name| - 4..] == "OUT\n"))
    ensures name in TransVars(all, |all|).0 && NoBreak(name) && |name| >= 3 ==> name[|name| - 3..] != "OUT"
  {
    TransVarsSplit(all, |all|);
    assert all[..|all|] == all;
    OutdoorMatchSuffix(name);
    if name in TransVars(all, |all|).1 {
      assert OutdoorMatch(name);
    }
    if name in TransVars(all, |all|).0 {
      assert !OutdoorMatch(name);
    }
  }

  /** A match of `.*OUT$` ends in "OUT", before any final line break; a name
      without line breaks ending in "OUT" matches. */
  lemma OutdoorMatchSuffix(name: string)
    ensures OutdoorMatch(name) ==> |name| >= 3 && (name[|name| - 3..] == "OUT" || (|name| >= 4 && name[|name| - 4..] == "OUT\n"))
    ensures NoBreak(name) && |name| >= 3 && name[|name| - 3..] == "OUT" ==> OutdoorMatch(name)
  {
    if NoBreak(name) && |name| >= 3 {
      assert NoBreak(name[..|name| - 3]);
    }
  }

  /** `get_trans_vars`: the indoor and outdoor variables that can be carried. */
  method GetTransVars(all: seq<string>) returns (indoor: seq<string>, outdoor: seq<string>)
    ensures (indoor, outdoor) == TransVars(all, |all|)
  {
    indoor, outdoor := [], [];
    for i := 0 to |all|
      invariant (indoor, outdoor) == TransVars(all, i)
    {
      var name := all[i];
      var matched := IsExcluded(name);
      if !matched {
        if OutdoorMatch(name) {
          outdoor := outdoor + [name];
        } else {
          indoor := indoor + [name];
        }
      }
    }
  }

  /** Room concentrations, keyed by variable name. */
  type Concentrations = map<string, real>

  /** The change in the concentrations of `names`: what enters, minus what
      leaves, over the volume. */
  function Changes(names: seq<string>, inflow: real, inside: Concentrations, outflow: real, source: Concentrations, volume: real): (r: seq<real>)
    requires volume != 0.0
    requires forall n :: n in names ==> n in inside && n in source
    ensures |r| == |names|
    ensures forall k :: 0 <= k < |names| ==> r[k] == (inflow * source[names[k]] - outflow * inside[names[k]]) / volume
  {
    seq(|names|, k requires 0 <= k < |names| => (inflow * source[names[k]] - outflow * inside[names[k]]) / volume)
  }

  class ApertureFlowCalculator {
    const indoorVarList: seq<string>
    const outdoorVarList: seq<string>

    /** Sorts the variables into the two lists once. */
    constructor (allVarList: seq<string>)
      ensures (indoorVarList, outdoorVarList) == TransVars(allVarList, |allVarList|)
    {
      var indoor, outdoor := GetTransVars(allVarList);
      indoorVarList := indoor;
      outdoorVarList := outdoor;
    }

    /** Every carried variable is present in `c`. */
    predicate Covers(c: Concentrations)
    {
      forall n :: n in indoorVarList ==> n in c
    }

    /** `concentration_changes`: the changes in both rooms of each indoor
        variable, in list order; KeyError when a room lacks one. */
    function ConcentrationChanges(flux: Fluxes, deltaTime: real, c1: Concentrations, c2: Concentrations,
                                  v1: real, v2: real): (r: Result<(seq<real>, seq<real>)>)
      requires v1 != 0.0 && v2 != 0.0
      ensures r.Ok? <==> Covers(c1) && Covers(c2)
      ensures r.Ok? ==> |r.value.0| == |indoorVarList| && |r.value.1| == |indoorVarList|
      ensures r.Ok? ==> forall k :: 0 <= k < |indoorVarList| ==>
        r.value.0[k] == (flux.from2To1 * deltaTime * c2[indoorVarList[k]] - flux.from1To2 * deltaTime * c1[indoorVarList[k]]) / v1
      ensures r.Ok? ==> forall k :: 0 <= k < |indoorVarList| ==>
        r.value.1[k] == (flux.from1To2 * deltaTime * c1[indoorVarList[k]] - flux.from2To1 * deltaTime * c2[indoorVarList[k]]) / v2
    {
      if !Covers(c1) || !Covers(c2) then Err("KeyError")
      else
        var flow12 := flux.from1To2 * deltaTime;
        var flow21 := flux.from2To1 * deltaTime;
        Ok((Changes(indoorVarList, flow21, c1, flow12, c2, v1), Changes(indoorVarList, flow12, c2, flow21, c1, v2)))
    }

    /** What leaves one room enters the other: per variable, the change times
        the volume of one room is the negative of the other's. */
    lemma Conservation(flux: Fluxes, deltaTime: real, c1: Concentrations, c2: Concentrations, v1: real, v2: real, k: nat)
      requires v1 != 0.0 && v2 != 0.0
      requires ConcentrationChanges(flux, deltaTime, c1, c2, v1, v2).Ok? && k < |indoorVarList|
      ensures ConcentrationChanges(flux, deltaTime, c1, c2, v1, v2).value.0[k] * v1 +
              ConcentrationChanges(flux, deltaTime, c1, c2, v1, v2).value.1[k] * v2 == 0.0
    {
      var r := ConcentrationChanges(flux, deltaTime, c1, c2, v1, v2).value;
      var n := indoorVarList[k];
      var moved := flux.from2To1 * deltaTime * c2[n] - flux.from1To2 * deltaTime * c1[n];
      DivTimes(moved, v1);
      DivTimes(-moved, v2);
    }

    /** With flow only from room 1 to room 2, non-negative concentrations and
        positive volumes, room 1 loses and room 2 gains. */
    lemma OneWayFlow(flux: Fluxes, deltaTime: real, c1: Concentrations, c2: Concentrations, v1: real, v2: real, k: nat)
      requires v1 > 0.0 && v2 > 0.0 && flux.from1To2 >= 0.0 && flux.from2To1 == 0.0 && deltaTime >= 0.0
      requires ConcentrationChanges(flux, deltaTime, c1, c2, v1, v2).Ok? && k < |indoorVarList|
      requires c1[indoorVarList[k]] >= 0.0
      ensures ConcentrationChanges(flux, deltaTime, c1, c2, v1, v2).value.0[k] <= 0.0
      ensures ConcentrationChanges(flux, deltaTime, c1, c2, v1, v2).value.1[k] >= 0.0
    {
      var n := indoorVarList[k];
      var moved := flux.from1To2 * deltaTime * c1[n];
      NonNegProduct(flux.from1To2, deltaTime, c1[n]);
      assert (0.0 * deltaTime * c2[n] - moved) / v1 == -moved / v1;
      assert (moved - 0.0 * deltaTime * c2[n]) / v2 == moved / v2;
    }

    /** The inflow from outside after the first `n` outdoor variables: the
        variable "XOUT" gives X the room's value of "XOUT" when X is itself a
        room variable; KeyError when "XOUT" has no value. */
    function OutdoorInflow(c1: Concentrations, n: nat): Result<Concentrations>
      requires n <= |outdoorVarList|
    {
      if n == 0 then Ok(map[])
      else
        var before :- OutdoorInflow(c1, n - 1);
        var name := outdoorVarList[n - 1];
        var base := Strip3(name);
        if base in c1 then
          if name in c1 then Ok(before[base := c1[name]]) else Err("KeyError")
        else Ok(before)
    }

    /** Only room variables are fed from outside, each by its own "OUT" name. */
    lemma {:induction false} InflowFeedsPresent(c1: Concentrations, n: nat)
      requires n <= |outdoorVarList|
      ensures OutdoorInflow(c1, n).Ok? ==> forall x :: x in OutdoorInflow(c1, n).value ==>
        x in c1 && exists k :: (0 <= k < n && Strip3(outdoorVarList[k]) == x &&
          outdoorVarList[k] in c1 && OutdoorInflow(c1, n).value[x] == c1[outdoorVarList[k]])
    {
      if n > 0 {
        InflowFeedsPresent(c1, n - 1);
      }
    }

    lemma {:induction false} InflowErrorPersists(c1: Concentrations, m: nat, n: nat)
      requires m <= n <= |outdoorVarList|
      ensures OutdoorInflow(c1, m).Err? ==> OutdoorInflow(c1, n) == OutdoorInflow(c1, m)
    {
      if m < n {
        InflowErrorPersists(c1, m, n - 1);
      }
    }

    /** `outdoor_concentration_changes` after the inflow is known: over the
        union of the indoor variables and the fed ones, inflow minus outflow
        over the volume, a side without the variable counting as 0. */
    function OutdoorChanges(flux: Fluxes, deltaTime: real, c1: Concentrations, inflow: Concentrations, v1: real): (r: Concentrations)
      requires v1 != 0.0 && Covers(c1)
      ensures r.Keys == (set n | n in indoorVarList) + inflow.Keys
      ensures forall x :: x in r ==> (r[x] ==
        ((if x in inflow then flux.from2To1 * deltaTime * inflow[x] else 0.0) -
         (if x in indoorVarList then flux.from1To2 * deltaTime * c1[x] else 0.0)) / v1)
    {
      map x | x in (set n | n in indoorVarList) + inflow.Keys ::
        ((if x in inflow then flux.from2To1 * deltaTime * inflow[x] else 0.0) -
         (if x in indoorVarList then flux.from1To2 * deltaTime * c1[x] else 0.0)) / v1
    }

    /** `outdoor_concentration_changes`: the change in room 1 of every
        indoor variable and every variable fed from outside. */
    method OutdoorConcentrationChanges(flux: Fluxes, deltaTime: real, c1: Concentrations, v1: real)
      returns (r: Result<Concentrations>)
      requires v1 != 0.0
      ensures !Covers(c1) ==> r == Err("KeyError")
      ensures Covers(c1) && OutdoorInflow(c1, |outdoorVarList|).Err? ==> r == Err("KeyError")
      ensures Covers(c1) && OutdoorInflow(c1, |outdoorVarList|).Ok? ==>
        r == Ok(OutdoorChanges(flux, deltaTime, c1, OutdoorInflow(c1, |outdoorVarList|).value, v1))
    {
      if !Covers(c1) {
        return Err("KeyError");
      }
      var outdoorConcentrations: Concentrations := map[];
      for i := 0 to |outdoorVarList|
        invariant OutdoorInflow(c1, i) == Ok(outdoorConcentrations)
      {
        var outdoorVar := outdoorVarList[i];
        var withoutOut := Strip3(outdoorVar);
        if withoutOut in c1 {
          if outdoorVar !in c1 {
            InflowErrorPersists(c1, i + 1, |outdoorVarList|);
            return Err("KeyError");
          }
          outdoorConcentrations := outdoorConcentrations[withoutOut := c1[outdoorVar]];
        }
      }
      return Ok(OutdoorChanges(flux, deltaTime, c1, outdoorConcentrations, v1));
    }
  }

  /** `s[:-3]`: all but the last three characters (empty for shorter `s`). */
  function Strip3(s: string): (r: string)
    ensures |s| >= 3 ==> s == r + s[|s| - 3..]
    ensures |s| < 3 ==> r == []
  {
    if |s| >= 3 then s[..|s| - 3] else []
  }

  lemma DivTimes(x: real, v: real)
    requires v != 0.0
    ensures (x / v) * v == x
  {
  }

  lemma NonNegProduct(a: real, b: real, c: real)
    requires a >= 0.0 && b >= 0.0 && c >= 0.0
    ensures a * b * c >= 0.0
  {
    assert a * b >= 0.0;
  }
}
