/** multiroom_model/surface_composition.py: the percentage of a room's surface
    made of each material; the eleven percentages must sum to 100. */
module Surfaces {
  import opened Wrappers

  datatype SurfaceComposition = SurfaceComposition(
    soft: real, paint: real, wood: real, metal: real, concrete: real, paper: real,
    lino: real, plastic: real, glass: real, human: real, other: real)

  /** The keys of `surface_area_dictionary`, in the order the dict literal lists them. */
  const Keys: seq<string> := ["SOFT", "PAINT", "WOOD", "METAL", "CONCRETE", "PAPER",
                              "LINO", "PLASTIC", "GLASS", "HUMAN", "OTHER"]

  /** The percentages in dictionary-key order. */
  function Percentages(c: SurfaceComposition): (r: seq<real>)
    ensures |r| == |Keys| && r[0] == c.soft && r[|r| - 1] == c.other
  {
    [c.soft, c.paint, c.wood, c.metal, c.concrete, c.paper, c.lino, c.plastic, c.glass, c.human, c.other]
  }

  function Sum(s: seq<real>): real {
    if |s| == 0 then 0.0 else s[0] + Sum(s[1..])
  }

  /** The eleven percentages added up. */
  function Total(c: SurfaceComposition): real {
    c.soft + c.paint + c.wood + c.metal + c.concrete + c.paper + c.lino + c.plastic + c.glass + c.human + c.other
  }

  lemma SumOfPercentages(c: SurfaceComposition)
    ensures Sum(Percentages(c)) == Total(c)
  {
    var p := Percentages(c);
    assert Sum(p[10..]) == p[10] by { assert p[10..][1..] == []; }
    assert Sum(p[9..]) == p[9] + Sum(p[10..]) by { assert p[9..][1..] == p[10..]; }
    assert Sum(p[8..]) == p[8] + Sum(p[9..]) by { assert p[8..][1..] == p[9..]; }
    assert Sum(p[7..]) == p[7] + Sum(p[8..]) by { assert p[7..][1..] == p[8..]; }
    assert Sum(p[6..]) == p[6] + Sum(p[7..]) by { assert p[6..][1..] == p[7..]; }
    assert Sum(p[5..]) == p[5] + Sum(p[6..]) by { assert p[5..][1..] == p[6..]; }
    assert Sum(p[4..]) == p[4] + Sum(p[5..]) by { assert p[4..][1..] == p[5..]; }
    assert Sum(p[3..]) == p[3] + Sum(p[4..]) by { assert p[3..][1..] == p[4..]; }
    assert Sum(p[2..]) == p[2] + Sum(p[3..]) by { assert p[2..][1..] == p[3..]; }
    assert Sum(p[1..]) == p[1] + Sum(p[2..]) by { assert p[1..][1..] == p[2..]; }
    assert Sum(p[0..]) == p[0] + Sum(p[1..]) by { assert p[0..][1..] == p[1..]; }
    assert p[0..] == p;
  }

  /** `surface_area_dictionary(T)`: one entry per key, holding that material's share of `T`. */
  function SurfaceAreaDictionary(c: SurfaceComposition, total: real): (r: seq<(string, real)>)
    ensures |r| == |Keys|
    ensures forall i :: 0 <= i < |r| ==> r[i].0 == Keys[i] && r[i].1 == total * Percentages(c)[i] / 100.0
  {
    var p := Percentages(c);
    seq(|p|, i requires 0 <= i < |p| => (Keys[i], total * p[i] / 100.0))
  }

  /** The areas of a dictionary, in key order. */
  function Areas(d: seq<(string, real)>): (r: seq<real>)
    ensures |r| == |d| && forall i :: 0 <= i < |d| ==> r[i] == d[i].1
  {
    seq(|d|, i requires 0 <= i < |d| => d[i].1)
  }

  /** The value given for `other`, or whatever brings the ten materials to 100,
      then clamped at 0 (the clamp applies to a given value too). */
  function ResolveOther(soft: real, paint: real, wood: real, metal: real, concrete: real, paper: real,
                        lino: real, plastic: real, human: real, glass: real, other: Option<real>): (r: real)
    ensures r >= 0.0
    ensures other.Some? && other.value >= 0.0 ==> r == other.value
    ensures other.None? ==> r + soft + paint + wood + metal + concrete + paper + lino + plastic + glass + human >= 100.0
    ensures other.None? && soft + paint + wood + metal + concrete + paper + lino + plastic + glass + human <= 100.0 ==>
      r + soft + paint + wood + metal + concrete + paper + lino + plastic + glass + human == 100.0
  {
    var o := if other.Some? then other.value
             else 100.0 - soft - paint - wood - metal - concrete - paper - lino - plastic - glass - human;
    if o < 0.0 then 0.0 else o
  }

  /** The first entry, in key order, whose value lies outside [0, 100]. */
  function FirstOutOfRange(d: seq<(string, real)>, i: nat): (r: Option<nat>)
    requires i <= |d|
    ensures r.Some? ==> i <= r.value < |d| && (d[r.value].1 < 0.0 || d[r.value].1 > 100.0)
    ensures r.None? <==> forall j :: i <= j < |d| ==> 0.0 <= d[j].1 <= 100.0
    decreases |d| - i
  {
    if i == |d| then None
    else if d[i].1 < 0.0 || d[i].1 > 100.0 then Some(i)
    else FirstOutOfRange(d, i + 1)
  }

  const Tolerance: real := 0.000000000001

  /** Construction succeeds when the sum is within 1e-12 of 100 and every percentage is in [0, 100]. */
  predicate Acceptable(c: SurfaceComposition) {
    100.0 - Tolerance <= Total(c) <= 100.0 + Tolerance &&
    forall i :: 0 <= i < |Keys| ==> 0.0 <= Percentages(c)[i] <= 100.0
  }

  /** `sum(d.values())` for a dictionary in key order. */
  function DictTotal(d: seq<(string, real)>): real {
    Sum(Areas(d))
  }

  /** At `T = 100` the dictionary holds the percentages themselves, and its total is theirs. */
  lemma HundredDictionary(c: SurfaceComposition)
    ensures DictTotal(SurfaceAreaDictionary(c, 100.0)) == Total(c)
    ensures forall i :: 0 <= i < |Keys| ==> SurfaceAreaDictionary(c, 100.0)[i].1 == Percentages(c)[i]
  {
    ScaledSum(Percentages(c), SurfaceAreaDictionary(c, 100.0), 100.0);
    SumOfPercentages(c);
  }

  /** The composition the constructor stores before validating it. */
  function Candidate(soft: real, paint: real, wood: real, metal: real, concrete: real, paper: real,
                     lino: real, plastic: real, human: real, glass: real, other: Option<real>): SurfaceComposition
  {
    SurfaceComposition(soft, paint, wood, metal, concrete, paper, lino, plastic, glass, human,
                       ResolveOther(soft, paint, wood, metal, concrete, paper, lino, plastic, human, glass, other))
  }

  /** The constructor: resolve `other`, check the dictionary total at 100, then check
      each entry in key order.  The keyword order of the source (`human` before `glass`) is kept. */
  function Make(soft: real, paint: real, wood: real, metal: real, concrete: real, paper: real,
                lino: real, plastic: real, human: real, glass: real, other: Option<real>): (r: Result<SurfaceComposition>)
    ensures var c := Candidate(soft, paint, wood, metal, concrete, paper, lino, plastic, human, glass, other);
            (r.Ok? <==> Acceptable(c)) && (r.Ok? ==> r.value == c)
  {
    var c := Candidate(soft, paint, wood, metal, concrete, paper, lino, plastic, human, glass, other);
    var d := SurfaceAreaDictionary(c, 100.0);
    HundredDictionary(c);
    var total := DictTotal(d);
    if total > 100.0 + Tolerance || total < 100.0 - Tolerance then
      Err("The total did not come to 100% (if you leave \"other\" undefined it will be calculated)")
    else match FirstOutOfRange(d, 0)
      case Some(i) => Err(Keys[i] + " must be a percentage between 0 and 100")
      case None => Ok(c)
  }

  /** Scaling every percentage by `total / 100` scales their sum the same way. */
  lemma {:induction false} ScaledSum(p: seq<real>, d: seq<(string, real)>, total: real)
    requires |p| == |d| && forall i :: 0 <= i < |d| ==> d[i].1 == total * p[i] / 100.0
    ensures Sum(Areas(d)) == total * Sum(p) / 100.0
  {
    if |p| > 0 {
      ScaledSum(p[1..], d[1..], total);
      assert Areas(d)[1..] == Areas(d[1..]);
    }
  }

  /** For a successfully constructed composition the dictionary entries sum to `T`,
      up to the 1e-12 percentage tolerance the constructor allows. */
  lemma DictionarySumsToTotal(c: SurfaceComposition, total: real)
    requires Acceptable(c) && total >= 0.0
    ensures total - total * Tolerance / 100.0 <= DictTotal(SurfaceAreaDictionary(c, total)) <= total + total * Tolerance / 100.0
  {
    var d := SurfaceAreaDictionary(c, total);
    var lo, x, hi := 100.0 - Tolerance, Total(c), 100.0 + Tolerance;
    ScaledSum(Percentages(c), d, total);
    SumOfPercentages(c);
    assert DictTotal(d) == total * x / 100.0;
    ScaleBetween(lo, x, hi, total, DictTotal(d));
    assert total * hi == total * 100.0 + total * Tolerance;
    assert total * lo == total * 100.0 - total * Tolerance;
    assert total * hi / 100.0 == total + total * Tolerance / 100.0;
    assert total * lo / 100.0 == total - total * Tolerance / 100.0;
  }

  /** A percentage `x` between `lo` and `hi` of a nonnegative `k` lies
      between the same percentages of `k`. */
  lemma ScaleBetween(lo: real, x: real, hi: real, k: real, scaled: real)
    requires lo <= x <= hi && k >= 0.0 && scaled == k * x / 100.0
    ensures k * lo / 100.0 <= scaled <= k * hi / 100.0
  {
    assert k * x - k * lo == k * (x - lo);
    assert k * (x - lo) >= 0.0;
    assert k * hi - k * x == k * (hi - x);
    assert k * (hi - x) >= 0.0;
    assert k * lo <= k * x <= k * hi;
  }

  /** The default construction: every material 0 and `other` 100. */
  lemma DefaultConstruction()
    ensures Make(0.0, 0.0, 0.0, 0.0, 0.0, 0.0, 0.0, 0.0, 0.0, 0.0, None)
         == Ok(SurfaceComposition(0.0, 0.0, 0.0, 0.0, 0.0, 0.0, 0.0, 0.0, 0.0, 0.0, 100.0))
  {
    var c := Candidate(0.0, 0.0, 0.0, 0.0, 0.0, 0.0, 0.0, 0.0, 0.0, 0.0, None);
    assert c == SurfaceComposition(0.0, 0.0, 0.0, 0.0, 0.0, 0.0, 0.0, 0.0, 0.0, 0.0, 100.0);
    assert Total(c) == 100.0;
    assert Acceptable(c);
  }

  /** A given `other` that leaves the total at 120 or at 70 is rejected, as is a
      negative material even when the total is 100, and a material above 100. */
  lemma RejectedCompositions()
    ensures Make(50.0, 30.0, 30.0, 0.0, 0.0, 0.0, 0.0, 0.0, 0.0, 0.0, Some(10.0)).Err?
    ensures Make(20.0, 20.0, 20.0, 0.0, 0.0, 0.0, 0.0, 0.0, 0.0, 0.0, Some(10.0)).Err?
    ensures Make(-10.0, 10.0, 10.0, 0.0, 0.0, 0.0, 0.0, 0.0, 0.0, 0.0, Some(90.0)).Err?
    ensures Make(101.0, 0.0, 0.0, 0.0, 0.0, 0.0, 0.0, 0.0, 0.0, 0.0, None).Err?
  {
  }

  /** A computed `other` completes any ten materials in [0, 100] summing to at most 100. */
  lemma {:induction false} ComputedOtherCompletes(soft: real, paint: real, wood: real, metal: real, concrete: real,
                                                  paper: real, lino: real, plastic: real, human: real, glass: real)
    requires 0.0 <= soft && 0.0 <= paint && 0.0 <= wood && 0.0 <= metal && 0.0 <= concrete
    requires 0.0 <= paper && 0.0 <= lino && 0.0 <= plastic && 0.0 <= human && 0.0 <= glass
    requires soft + paint + wood + metal + concrete + paper + lino + plastic + human + glass <= 100.0
    ensures Make(soft, paint, wood, metal, concrete, paper, lino, plastic, human, glass, None).Ok?
  {
    var c := Candidate(soft, paint, wood, metal, concrete, paper, lino, plastic, human, glass, None);
    assert Total(c) == 100.0;
    assert c.other <= 100.0 && soft <= 100.0 && paint <= 100.0 && wood <= 100.0 && metal <= 100.0;
    assert concrete <= 100.0 && paper <= 100.0 && lino <= 100.0 && plastic <= 100.0 && human <= 100.0 && glass <= 100.0;
    PercentagesInRange(c);
    assert Acceptable(c);
  }

  /** Eleven fields in [0, 100] are eleven percentages in [0, 100]. */
  lemma PercentagesInRange(c: SurfaceComposition)
    requires 0.0 <= c.soft <= 100.0 && 0.0 <= c.paint <= 100.0 && 0.0 <= c.wood <= 100.0 && 0.0 <= c.metal <= 100.0
    requires 0.0 <= c.concrete <= 100.0 && 0.0 <= c.paper <= 100.0 && 0.0 <= c.lino <= 100.0 && 0.0 <= c.plastic <= 100.0
    requires 0.0 <= c.glass <= 100.0 && 0.0 <= c.human <= 100.0 && 0.0 <= c.other <= 100.0
    ensures forall i :: 0 <= i < |Keys| ==> 0.0 <= Percentages(c)[i] <= 100.0
  {
  }
}
