/** `RoomChemistryJSONBuilder`: building rooms from decoded JSON, accepting
    the compact list forms and the explicit object forms of time series and
    brackets, and the three layouts of a multi-room document. */
module JsonParser {
  import opened Wrappers
  import opened PyOps
  import opened TimeDependent
  import opened Bracketed
  import opened Surfaces
  import opened RoomChemistryRecord

  /** A decoded JSON value. An object keeps its entries in document order. */
  datatype Json =
    | JNull
    | JBool(b: bool)
    | JNum(n: real)
    | JStr(s: string)
    | JArr(items: seq<Json>)
    | JObj(entries: seq<(string, Json)>)

  /** Python's `str()` of a decoded value and `float()` of a string, which
      the model takes as given. */
  datatype PyText = PyText(str: Json -> string, parseFloat: string -> Option<real>)

  /** `key in d`. */
  predicate Has(entries: seq<(string, Json)>, key: string)
  {
    exists i :: 0 <= i < |entries| && entries[i].0 == key
  }

  /** `d[key]`: the value of the first entry with that key. */
  function Get(entries: seq<(string, Json)>, key: string): (r: Option<Json>)
    ensures r.Some? <==> Has(entries, key)
    ensures r.Some? ==> exists i :: 0 <= i < |entries| && entries[i] == (key, r.value)
  {
    if |entries| == 0 then None
    else if entries[0].0 == key then Some(entries[0].1)
    else
      var rest := Get(entries[1..], key);
      assert forall i :: 1 <= i < |entries| ==> entries[i] == entries[1..][i - 1];
      assert Has(entries[1..], key) ==> Has(entries, key);
      rest
  }

  /** `bool(x)`: Python truthiness. */
  predicate Truthy(j: Json)
  {
    match j
    case JNull => false
    case JBool(b) => b
    case JNum(n) => n != 0.0
    case JStr(s) => |s| > 0
    case JArr(items) => |items| > 0
    case JObj(entries) => |entries| > 0
  }

  /** `float(x)`: numbers and booleans convert, strings are parsed, anything
      else is a TypeError. */
  function FloatOf(j: Json, py: PyText): (r: Result<real>)
    ensures j.JNum? ==> r == Ok(j.n)
    ensures j.JNull? || j.JArr? || j.JObj? ==> r == Err("TypeError")
  {
    match j
    case JNum(n) => Ok(n)
    case JBool(b) => Ok(if b then 1.0 else 0.0)
    case JStr(s) => (match py.parseFloat(s) case Some(x) => Ok(x) case None => Err("ValueError"))
    case _ => Err("TypeError")
  }

  /** A composition entry used in arithmetic: numbers and booleans only. */
  function Number(j: Json): (r: Result<real>)
    ensures r.Ok? <==> j.JNum? || j.JBool?
  {
    match j
    case JNum(n) => Ok(n)
    case JBool(b) => Ok(if b then 1.0 else 0.0)
    case _ => Err("TypeError")
  }

  /** `d.get(key, 0)` used as a number. */
  function Percentage(entries: seq<(string, Json)>, key: string): Result<real>
  {
    match Get(entries, key)
    case None => Ok(0.0)
    case Some(j) => Number(j)
  }

  /** The list a normaliser walks: a list as it is, the "values" of an
      object; anything else, or an object without "values", is rejected. */
  function Source(obj: Json, what: string): (r: Result<seq<Json>>)
    ensures obj.JArr? ==> r == Ok(obj.items)
    ensures obj.JObj? && !Has(obj.entries, "values") ==> r == Err(what + " dict must include 'values' key")
    ensures obj.JObj? && Has(obj.entries, "values") ==>
      (r.Ok? <==> Get(obj.entries, "values").value.JArr?)
    ensures !obj.JArr? && !obj.JObj? ==> r.Err?
  {
    match obj
    case JArr(items) => Ok(items)
    case JObj(entries) =>
      (match Get(entries, "values")
       case None => Err(what + " dict must include 'values' key")
       case Some(JArr(items)) => Ok(items)
       case Some(_) => Err(what + " 'values' must be a list"))
    case _ => Err(what + " 'values' must be a list")
  }

  /** The first of `keys` present in an item dict. */
  function Either(entries: seq<(string, Json)>, long: string, short: string): (r: Option<Json>)
    ensures Has(entries, long) ==> r == Get(entries, long)
    ensures !Has(entries, long) ==> r == Get(entries, short)
  {
    if Has(entries, long) then Get(entries, long) else Get(entries, short)
  }

  /** One item of a time series: a two-element list, or an object with
      "time" (else "t") and "value" (else "v"); both must convert to floats. */
  function TimeValueItem(item: Json, py: PyText): Result<(real, real)>
  {
    match item
    case JArr(xs) =>
      if |xs| != 2 then Err("time-value pair must have length 2 (time, value)")
      else Numeric2(FloatOf(xs[0], py), FloatOf(xs[1], py))
    case JObj(es) =>
      (match Either(es, "time", "t")
       case None => Err("time-value dict missing 'time'/'t' key")
       case Some(t) =>
         match Either(es, "value", "v")
         case None => Err("time-value dict missing 'value'/'v' key")
         case Some(v) => Numeric2(FloatOf(t, py), FloatOf(v, py)))
    case _ => Err("Unsupported time-value item type")
  }

  /** The item rules: a list must have two elements; an object takes
      "time" before "t" and "value" before "v"; both parts must convert;
      anything else is rejected. */
  lemma TimeValueItemRules(item: Json, py: PyText)
    ensures item.JArr? && |item.items| != 2 ==> TimeValueItem(item, py).Err?
    ensures item.JArr? && |item.items| == 2 ==>
      (TimeValueItem(item, py).Ok? <==> FloatOf(item.items[0], py).Ok? && FloatOf(item.items[1], py).Ok?) &&
      (TimeValueItem(item, py).Ok? ==> TimeValueItem(item, py).value == (FloatOf(item.items[0], py).value, FloatOf(item.items[1], py).value))
    ensures item.JObj? ==>
      (TimeValueItem(item, py).Ok? <==> (Either(item.entries, "time", "t").Some? && Either(item.entries, "value", "v").Some? &&
                  FloatOf(Either(item.entries, "time", "t").value, py).Ok? &&
                  FloatOf(Either(item.entries, "value", "v").value, py).Ok?))
    ensures item.JObj? && TimeValueItem(item, py).Ok? ==>
      TimeValueItem(item, py).value == (FloatOf(Either(item.entries, "time", "t").value, py).value,
                  FloatOf(Either(item.entries, "value", "v").value, py).value)
    ensures !item.JArr? && !item.JObj? ==> TimeValueItem(item, py).Err?
  {
  }

  /** `(float(t), float(v))`, any failure reported as ValueError. */
  function Numeric2(t: Result<real>, v: Result<real>): (r: Result<(real, real)>)
    ensures r.Ok? <==> t.Ok? && v.Ok?
    ensures r.Ok? ==> r.value == (t.value, v.value)
  {
    if t.Ok? && v.Ok? then Ok((t.value, v.value)) else Err("Invalid numeric time/value")
  }

  /** The first `n` items converted one by one, stopping at the first
      failure. */
  function Collect<T>(items: seq<Json>, n: nat, convert: Json -> Result<T>): Result<seq<T>>
    requires n <= |items|
  {
    if n == 0 then Ok([])
    else
      var before :- Collect(items, n - 1, convert);
      var x :- convert(items[n - 1]);
      Ok(before + [x])
  }

  /** Collecting succeeds exactly when every item converts, and then gives
      one value per item, in order. */
  lemma {:induction false} CollectFaithful<T>(items: seq<Json>, n: nat, convert: Json -> Result<T>)
    requires n <= |items|
    ensures Collect(items, n, convert).Ok? <==> forall i :: 0 <= i < n ==> convert(items[i]).Ok?
    ensures Collect(items, n, convert).Ok? ==> (|Collect(items, n, convert).value| == n &&
      forall i :: 0 <= i < n ==> Collect(items, n, convert).value[i] == convert(items[i]).value)
  {
    if n > 0 {
      CollectFaithful(items, n - 1, convert);
    }
  }

  /** The first failure is the error of every longer prefix. */
  lemma {:induction false} CollectErrorPersists<T>(items: seq<Json>, m: nat, n: nat, convert: Json -> Result<T>)
    requires m <= n <= |items|
    ensures Collect(items, m, convert).Err? ==> Collect(items, n, convert) == Collect(items, m, convert)
  {
    if m < n {
      CollectErrorPersists(items, m, n - 1, convert);
    }
  }

  /** One item's pair, as a function of the item. */
  function PairOf(py: PyText): Json -> Result<(real, real)>
  {
    j => TimeValueItem(j, py)
  }

  /** The pairs of the first `n` items. */
  function TimeValuePairs(items: seq<Json>, n: nat, py: PyText): Result<seq<(real, real)>>
    requires n <= |items|
  {
    Collect(items, n, PairOf(py))
  }

  /** `_normalize_time_value_list`: null gives no pairs; otherwise one pair
      per item of the source, in order. */
  function NormalizeTimeValues(obj: Json, py: PyText): Result<seq<(real, real)>>
  {
    if obj.JNull? then Ok([])
    else
      var items :- Source(obj, "time-dependent");
      TimeValuePairs(items, |items|, py)
  }

  /** The normaliser succeeds exactly when every item does, and then gives
      one pair per item, in order. */
  lemma TimeValuePairsFaithful(items: seq<Json>, n: nat, py: PyText)
    requires n <= |items|
    ensures TimeValuePairs(items, n, py).Ok? <==> forall i :: 0 <= i < n ==> TimeValueItem(items[i], py).Ok?
    ensures TimeValuePairs(items, n, py).Ok? ==> (|TimeValuePairs(items, n, py).value| == n &&
      forall i :: 0 <= i < n ==> TimeValuePairs(items, n, py).value[i] == TimeValueItem(items[i], py).value)
  {
    CollectFaithful(items, n, PairOf(py));
  }

  lemma PairErrorPersists(items: seq<Json>, m: nat, n: nat, py: PyText)
    requires m <= n <= |items|
    ensures TimeValuePairs(items, m, py).Err? ==> TimeValuePairs(items, n, py) == TimeValuePairs(items, m, py)
  {
    CollectErrorPersists(items, m, n, PairOf(py));
  }

  /** The loop of `_normalize_time_value_list`. */
  method NormalizeTimeValueList(obj: Json, py: PyText) returns (r: Result<seq<(real, real)>>)
    ensures r == NormalizeTimeValues(obj, py)
  {
    if obj.JNull? {
      return Ok([]);
    }
    var source := Source(obj, "time-dependent");
    if source.Err? {
      return Err(source.msg);
    }
    var items := source.value;
    var out: seq<(real, real)> := [];
    for i := 0 to |items|
      invariant TimeValuePairs(items, i, py) == Ok(out)
    {
      var pair := TimeValueItem(items[i], py);
      if pair.Err? {
        PairErrorPersists(items, i + 1, |items|, py);
        return Err(pair.msg);
      }
      out := out + [pair.value];
    }
    return Ok(out);
  }

  /** One item of a bracket list: a three-element list, or an object with
      "start"/"s", "end"/"e" and "value"/"v"; all must convert to floats. */
  function BracketItem(item: Json, py: PyText): Result<(real, real, real)>
  {
    match item
    case JArr(xs) =>
      if |xs| != 3 then Err("bracketed triple must have length 3 (start, end, value)")
      else Numeric3(FloatOf(xs[0], py), FloatOf(xs[1], py), FloatOf(xs[2], py))
    case JObj(es) =>
      (match Either(es, "start", "s")
       case None => Err("bracket dict missing 'start'/'s' key")
       case Some(s) =>
         match Either(es, "end", "e")
         case None => Err("bracket dict missing 'end'/'e' key")
         case Some(e) =>
           match Either(es, "value", "v")
           case None => Err("bracket dict missing 'value'/'v' key")
           case Some(v) => Numeric3(FloatOf(s, py), FloatOf(e, py), FloatOf(v, py)))
    case _ => Err("Unsupported bracketed item type")
  }

  /** The item rules: a list must have three elements; an object takes
      "start" before "s", "end" before "e" and "value" before "v"; all parts
      must convert; anything else is rejected. */
  lemma BracketItemRules(item: Json, py: PyText)
    ensures item.JArr? && |item.items| != 3 ==> BracketItem(item, py).Err?
    ensures item.JArr? && |item.items| == 3 ==>
      (BracketItem(item, py).Ok? <==> FloatOf(item.items[0], py).Ok? && FloatOf(item.items[1], py).Ok? && FloatOf(item.items[2], py).Ok?) &&
      (BracketItem(item, py).Ok? ==> BracketItem(item, py).value == (FloatOf(item.items[0], py).value, FloatOf(item.items[1], py).value, FloatOf(item.items[2], py).value))
    ensures item.JObj? ==>
      (BracketItem(item, py).Ok? <==> (Either(item.entries, "start", "s").Some? && Either(item.entries, "end", "e").Some? &&
                  Either(item.entries, "value", "v").Some? &&
                  FloatOf(Either(item.entries, "start", "s").value, py).Ok? &&
                  FloatOf(Either(item.entries, "end", "e").value, py).Ok? &&
                  FloatOf(Either(item.entries, "value", "v").value, py).Ok?))
    ensures item.JObj? && BracketItem(item, py).Ok? ==>
      BracketItem(item, py).value == (FloatOf(Either(item.entries, "start", "s").value, py).value,
                  FloatOf(Either(item.entries, "end", "e").value, py).value,
                  FloatOf(Either(item.entries, "value", "v").value, py).value)
    ensures !item.JArr? && !item.JObj? ==> BracketItem(item, py).Err?
  {
  }

  /** `(float(s), float(e), float(v))`, any failure reported as ValueError. */
  function Numeric3(s: Result<real>, e: Result<real>, v: Result<real>): (r: Result<(real, real, real)>)
    ensures r.Ok? <==> s.Ok? && e.Ok? && v.Ok?
    ensures r.Ok? ==> r.value == (s.value, e.value, v.value)
  {
    if s.Ok? && e.Ok? && v.Ok? then Ok((s.value, e.value, v.value)) else Err("Invalid numeric start/end/value")
  }

  /** One item's triple, as a function of the item. */
  function TripleOf(py: PyText): Json -> Result<(real, real, real)>
  {
    j => BracketItem(j, py)
  }

  /** The triples of the first `n` items. */
  function BracketTriples(items: seq<Json>, n: nat, py: PyText): Result<seq<(real, real, real)>>
    requires n <= |items|
  {
    Collect(items, n, TripleOf(py))
  }

  /** `_normalize_bracketed_list`. */
  function NormalizeBrackets(obj: Json, py: PyText): Result<seq<(real, real, real)>>
  {
    if obj.JNull? then Ok([])
    else
      var items :- Source(obj, "bracketed");
      BracketTriples(items, |items|, py)
  }

  lemma BracketTriplesFaithful(items: seq<Json>, n: nat, py: PyText)
    requires n <= |items|
    ensures BracketTriples(items, n, py).Ok? <==> forall i :: 0 <= i < n ==> BracketItem(items[i], py).Ok?
    ensures BracketTriples(items, n, py).Ok? ==> (|BracketTriples(items, n, py).value| == n &&
      forall i :: 0 <= i < n ==> BracketTriples(items, n, py).value[i] == BracketItem(items[i], py).value)
  {
    CollectFaithful(items, n, TripleOf(py));
  }

  lemma TripleErrorPersists(items: seq<Json>, m: nat, n: nat, py: PyText)
    requires m <= n <= |items|
    ensures BracketTriples(items, m, py).Err? ==> BracketTriples(items, n, py) == BracketTriples(items, m, py)
  {
    CollectErrorPersists(items, m, n, TripleOf(py));
  }

  /** The loop of `_normalize_bracketed_list`. */
  method NormalizeBracketedList(obj: Json, py: PyText) returns (r: Result<seq<(real, real, real)>>)
    ensures r == NormalizeBrackets(obj, py)
  {
    if obj.JNull? {
      return Ok([]);
    }
    var source := Source(obj, "bracketed");
    if source.Err? {
      return Err(source.msg);
    }
    var items := source.value;
    var out: seq<(real, real, real)> := [];
    for i := 0 to |items|
      invariant BracketTriples(items, i, py) == Ok(out)
    {
      var triple := BracketItem(items[i], py);
      if triple.Err? {
        TripleErrorPersists(items, i + 1, |items|, py);
        return Err(triple.msg);
      }
      out := out + [triple.value];
    }
    return Ok(out);
  }

  /** The interpolation flag: an explicit "continuous" in a wrapper object,
      read for its truth value, else the field's default. */
  function ContinuousFlag(obj: Json, defaultContinuous: bool): bool
  {
    if obj.JObj? && Has(obj.entries, "continuous") then Truthy(Get(obj.entries, "continuous").value)
    else defaultContinuous
  }

  /** `_make_time_dep`: null gives no series; an empty series is rejected;
      the pairs and flag then go to the `TimeDependentValue` constructor. */
  function MakeTimeDep(obj: Json, defaultContinuous: bool, py: PyText): (r: Result<Option<TimeDependentValue>>)
    ensures obj.JNull? ==> r == Ok(None)
    ensures NormalizeTimeValues(obj, py) == Ok([]) && !obj.JNull? ==> r == Err("Time-dependent values list is empty")
    ensures r.Ok? && r.value.Some? ==>
      NormalizeTimeValues(obj, py).Ok? && r.value.value.samples == NormalizeTimeValues(obj, py).value &&
      r.value.value.continuous == ContinuousFlag(obj, defaultContinuous) && TimeDependent.Valid(r.value.value)
  {
    if obj.JNull? then Ok(None)
    else
      var continuous := ContinuousFlag(obj, defaultContinuous);
      var pairs :- NormalizeTimeValues(obj, py);
      if |pairs| == 0 then Err("Time-dependent values list is empty")
      else
        var value :- TimeDependent.Make(pairs, continuous);
        Ok(Some(value))
  }

  /** `_make_bracketed`: null gives no value; an empty list is rejected. */
  function MakeBracketed(obj: Json, py: PyText): (r: Result<Option<TimeBracketedValue>>)
    ensures obj.JNull? ==> r == Ok(None)
    ensures NormalizeBrackets(obj, py) == Ok([]) && !obj.JNull? ==> r == Err("Bracketed values list is empty")
    ensures r.Ok? && r.value.Some? ==>
      NormalizeBrackets(obj, py).Ok? && r.value.value.brackets == NormalizeBrackets(obj, py).value
  {
    if obj.JNull? then Ok(None)
    else
      var triples :- NormalizeBrackets(obj, py);
      if |triples| == 0 then Err("Bracketed values list is empty")
      else
        var value :- Bracketed.Make(triples);
        Ok(Some(value))
  }

  /** An optional time-dependent field: left absent unless the key is there. */
  function OptionalSeries(data: seq<(string, Json)>, key: string, defaultContinuous: bool, py: PyText,
                          current: Option<TimeDependentValue>): (r: Result<Option<TimeDependentValue>>)
    ensures !Has(data, key) ==> r == Ok(current)
    ensures Has(data, key) && Get(data, key).value.JNull? ==> r == Ok(None)
    ensures Has(data, key) && !Get(data, key).value.JNull? && r.Ok? ==> r.value.Some?
    ensures Has(data, key) && r.Ok? && r.value.Some? ==>
      !Get(data, key).value.JNull? && r.value.value.continuous == ContinuousFlag(Get(data, key).value, defaultContinuous)
  {
    if Has(data, key) then MakeTimeDep(Get(data, key).value, defaultContinuous, py) else Ok(current)
  }

  /** The emissions of the first `n` species, each under its name. */
  function EmissionsOf(species: seq<(string, Json)>, n: nat, py: PyText): Result<seq<(string, Option<TimeBracketedValue>)>>
    requires n <= |species|
  {
    if n == 0 then Ok([])
    else
      var before :- EmissionsOf(species, n - 1, py);
      var value :- MakeBracketed(species[n - 1].1, py);
      Ok(before + [(species[n - 1].0, value)])
  }

  lemma {:induction false} EmissionsKeys(species: seq<(string, Json)>, n: nat, py: PyText)
    requires n <= |species|
    ensures EmissionsOf(species, n, py).Ok? ==> (|EmissionsOf(species, n, py).value| == n &&
      forall i :: 0 <= i < n ==> (EmissionsOf(species, n, py).value[i].0 == species[i].0 &&
        MakeBracketed(species[i].1, py) == Ok(EmissionsOf(species, n, py).value[i].1)))
  {
    if n > 0 {
      EmissionsKeys(species, n - 1, py);
    }
  }

  /** The emissions field: an object keyed by species, or an error. */
  function Emissions(data: seq<(string, Json)>, py: PyText, current: Option<seq<(string, Option<TimeBracketedValue>)>>)
    : (r: Result<Option<seq<(string, Option<TimeBracketedValue>)>>>)
    ensures !Has(data, "emissions") ==> r == Ok(current)
    ensures Has(data, "emissions") && !Get(data, "emissions").value.JObj? ==> r.Err?
    ensures Has(data, "emissions") && r.Ok? ==> r.value.Some?
  {
    if !Has(data, "emissions") then Ok(current)
    else match Get(data, "emissions").value
      case JObj(species) =>
        var e :- EmissionsOf(species, |species|, py);
        Ok(Some(e))
      case _ => Err("emissions must be an object/dict keyed by species")
  }

  /** The five required keys are all present. */
  predicate HasRequired(data: seq<(string, Json)>)
  {
    Has(data, "volume_in_m3") && Has(data, "surf_area_in_m2") && Has(data, "light_type") &&
    Has(data, "glass_type") && Has(data, "composition")
  }

  /** The `ValueError` message for a missing required key: the f-string
      holds `str` of the `KeyError`, which is the key's repr, quoted. */
  function MissingKey(key: string): string
  {
    "Missing required RoomChemistry key: '" + key + "'"
  }

  /** The first required key, in the order the source reads them, that the
      document lacks. */
  function FirstMissing(data: seq<(string, Json)>): (key: string)
    requires !HasRequired(data)
    ensures !Has(data, key)
    ensures key in ["volume_in_m3", "surf_area_in_m2", "light_type", "glass_type", "composition"]
  {
    if !Has(data, "volume_in_m3") then "volume_in_m3"
    else if !Has(data, "surf_area_in_m2") then "surf_area_in_m2"
    else if !Has(data, "light_type") then "light_type"
    else if !Has(data, "glass_type") then "glass_type"
    else "composition"
  }

  /** The composition built from the "composition" object: absent materials
      are 0, an absent or null "other" is computed. */
  function CompositionOf(comp: seq<(string, Json)>): Result<SurfaceComposition>
  {
    var soft :- Percentage(comp, "soft");
    var paint :- Percentage(comp, "paint");
    var wood :- Percentage(comp, "wood");
    var metal :- Percentage(comp, "metal");
    var concrete :- Percentage(comp, "concrete");
    var paper :- Percentage(comp, "paper");
    var lino :- Percentage(comp, "lino");
    var plastic :- Percentage(comp, "plastic");
    var human :- Percentage(comp, "human");
    var glass :- Percentage(comp, "glass");
    var other :- OtherOf(comp);
    Surfaces.Make(soft, paint, wood, metal, concrete, paper, lino, plastic, human, glass, other)
  }

  /** `d.get("other", None)`: absent and null both leave `other` to be computed. */
  function OtherOf(comp: seq<(string, Json)>): Result<Option<real>>
  {
    match Get(comp, "other")
    case None => Ok(None)
    case Some(j) =>
      if j.JNull? then Ok(None)
      else match Number(j)
        case Ok(o) => Ok(Some(o))
        case Err(m) => Err(m)
  }

  /** The five required keys are present, the volume and the surface area
      convert with `float`, and the composition is an object whose
      percentages make a composition. */
  predicate RequiredConvert(data: seq<(string, Json)>, py: PyText)
  {
    HasRequired(data) &&
    FloatOf(Get(data, "volume_in_m3").value, py).Ok? && FloatOf(Get(data, "surf_area_in_m2").value, py).Ok? &&
    Get(data, "composition").value.JObj? && CompositionOf(Get(data, "composition").value.entries).Ok?
  }

  /** The room the required fields describe: `float` of the volume and the
      surface area, `str` of the light and glass types, and the composition
      built from its object. */
  function RequiredRoom(data: seq<(string, Json)>, py: PyText): RoomChemistry
    requires RequiredConvert(data, py)
  {
    NewRoom(FloatOf(Get(data, "volume_in_m3").value, py).value, FloatOf(Get(data, "surf_area_in_m2").value, py).value,
            py.str(Get(data, "light_type").value), py.str(Get(data, "glass_type").value),
            CompositionOf(Get(data, "composition").value.entries).value)
  }

  /** The required fields, converted in source order. */
  function RequiredFields(data: seq<(string, Json)>, py: PyText): (r: Result<RoomChemistry>)
    ensures r.Ok? <==> RequiredConvert(data, py)
    ensures r.Ok? ==> r.value == RequiredRoom(data, py)
    ensures r.Ok? ==> Bare(r.value)
    ensures !HasRequired(data) ==>
      r.Err? && (r.msg == MissingKey(FirstMissing(data)) || r.msg == "TypeError" || r.msg == "ValueError")
  {
    if !Has(data, "volume_in_m3") then Err(MissingKey("volume_in_m3"))
    else
      var volume :- FloatOf(Get(data, "volume_in_m3").value, py);
      if !Has(data, "surf_area_in_m2") then Err(MissingKey("surf_area_in_m2"))
      else
        var surfArea :- FloatOf(Get(data, "surf_area_in_m2").value, py);
        if !Has(data, "light_type") then Err(MissingKey("light_type"))
        else if !Has(data, "glass_type") then Err(MissingKey("glass_type"))
        else if !Has(data, "composition") then Err(MissingKey("composition"))
        else
          var lightType := py.str(Get(data, "light_type").value);
          var glassType := py.str(Get(data, "glass_type").value);
          match Get(data, "composition").value
          case JObj(comp) =>
            var composition :- CompositionOf(comp);
            Ok(NewRoom(volume, surfArea, lightType, glassType, composition))
          case _ => Err("composition must be an object/dict of material percentages")
  }

  /** A room with none of its optional fields set, as `RoomChemistry(...)`
      leaves it after the required fields. */
  predicate Bare(room: RoomChemistry)
  {
    room.tempInKelvin.None? && room.rhInPercent.None? && room.airchangeInPerSecond.None? &&
    room.lightSwitch.None? && room.emissions.None? && room.nAdults.None? && room.nChildren.None?
  }

  /** `from_dict`: the required fields, then the optional ones. */
  function FromDict(data: seq<(string, Json)>, py: PyText): Result<RoomChemistry>
  {
    var room :- RequiredFields(data, py);
    WithOptionals(data, py, room)
  }

  /** Each optional field present, in source order: temperature, humidity
      and air change (continuous by default), light switch (stepwise by
      default), emissions, then adults and children (stepwise by default). */
  function WithOptionals(data: seq<(string, Json)>, py: PyText, room: RoomChemistry): Result<RoomChemistry>
  {
    var temp :- OptionalSeries(data, "temp_in_kelvin", true, py, room.tempInKelvin);
    var rh :- OptionalSeries(data, "rh_in_percent", true, py, room.rhInPercent);
    var airchange :- OptionalSeries(data, "airchange_in_per_second", true, py, room.airchangeInPerSecond);
    var lightSwitch :- OptionalSeries(data, "light_switch", false, py, room.lightSwitch);
    var emissions :- Emissions(data, py, room.emissions);
    var adults :- OptionalSeries(data, "n_adults", false, py, room.nAdults);
    var children :- OptionalSeries(data, "n_children", false, py, room.nChildren);
    Ok(room.(tempInKelvin := temp, rhInPercent := rh, airchangeInPerSecond := airchange,
             lightSwitch := lightSwitch, emissions := emissions, nAdults := adults, nChildren := children))
  }

  /** Every field the optional step sets is the conversion of its own key;
      the required fields are left as they were. */
  lemma OptionalsFields(data: seq<(string, Json)>, py: PyText, room: RoomChemistry)
    ensures WithOptionals(data, py, room).Ok? ==> (
      var r := WithOptionals(data, py, room).value;
      OptionalSeries(data, "temp_in_kelvin", true, py, room.tempInKelvin) == Ok(r.tempInKelvin) &&
      OptionalSeries(data, "rh_in_percent", true, py, room.rhInPercent) == Ok(r.rhInPercent) &&
      OptionalSeries(data, "airchange_in_per_second", true, py, room.airchangeInPerSecond) == Ok(r.airchangeInPerSecond) &&
      OptionalSeries(data, "light_switch", false, py, room.lightSwitch) == Ok(r.lightSwitch) &&
      Emissions(data, py, room.emissions) == Ok(r.emissions) &&
      OptionalSeries(data, "n_adults", false, py, room.nAdults) == Ok(r.nAdults) &&
      OptionalSeries(data, "n_children", false, py, room.nChildren) == Ok(r.nChildren) &&
      r.volumeInM3 == room.volumeInM3 && r.surfAreaInM2 == room.surfAreaInM2 &&
      r.lightType == room.lightType && r.glassType == room.glassType && r.composition == room.composition)
  {
  }

  /** A room is built only from a document holding the five required keys
      and a composition object. */
  lemma FromDictRequired(data: seq<(string, Json)>, py: PyText)
    ensures FromDict(data, py).Ok? ==> HasRequired(data)
    ensures FromDict(data, py).Ok? ==> Has(data, "composition") && Get(data, "composition").value.JObj?
    ensures FromDict(data, py).Ok? ==> RequiredConvert(data, py)
    ensures FromDict(data, py).Ok? && RequiredConvert(data, py) ==> (
      var r, room := FromDict(data, py).value, RequiredRoom(data, py);
      r.volumeInM3 == room.volumeInM3 && r.surfAreaInM2 == room.surfAreaInM2 &&
      r.lightType == room.lightType && r.glassType == room.glassType && r.composition == room.composition)
  {
    if FromDict(data, py).Ok? {
      var room := RequiredFields(data, py).value;
      assert WithOptionals(data, py, room) == FromDict(data, py);
      OptionalsFields(data, py, room);
    }
  }

  /** A series field is set exactly when its key is present with a
      non-null value, and then its interpolation flag is the wrapper's
      "continuous" or the field's default. */
  predicate SeriesFrom(data: seq<(string, Json)>, key: string, defaultContinuous: bool, field: Option<TimeDependentValue>)
  {
    (field.Some? <==> Has(data, key) && !Get(data, key).value.JNull?) &&
    (field.Some? ==> field.value.continuous == ContinuousFlag(Get(data, key).value, defaultContinuous))
  }

  /** An optional series converted onto an absent field obeys `SeriesFrom`. */
  lemma SeriesField(data: seq<(string, Json)>, key: string, defaultContinuous: bool, py: PyText,
                    field: Option<TimeDependentValue>)
    requires OptionalSeries(data, key, defaultContinuous, py, None) == Ok(field)
    ensures SeriesFrom(data, key, defaultContinuous, field)
  {
  }

  /** Continuous by default for temperature, humidity and air change,
      stepwise for the light switch and the people counts. */
  lemma FromDictSeries(data: seq<(string, Json)>, py: PyText)
    ensures FromDict(data, py).Ok? ==>
      var r := FromDict(data, py).value;
      SeriesFrom(data, "temp_in_kelvin", true, r.tempInKelvin) &&
      SeriesFrom(data, "rh_in_percent", true, r.rhInPercent) &&
      SeriesFrom(data, "airchange_in_per_second", true, r.airchangeInPerSecond) &&
      SeriesFrom(data, "light_switch", false, r.lightSwitch) &&
      SeriesFrom(data, "n_adults", false, r.nAdults) &&
      SeriesFrom(data, "n_children", false, r.nChildren)
  {
    if FromDict(data, py).Ok? {
      var room := RequiredFields(data, py).value;
      var r := FromDict(data, py).value;
      assert WithOptionals(data, py, room) == Ok(r);
      OptionalsFields(data, py, room);
      SeriesField(data, "temp_in_kelvin", true, py, r.tempInKelvin);
      SeriesField(data, "rh_in_percent", true, py, r.rhInPercent);
      SeriesField(data, "airchange_in_per_second", true, py, r.airchangeInPerSecond);
      SeriesField(data, "light_switch", false, py, r.lightSwitch);
      SeriesField(data, "n_adults", false, py, r.nAdults);
      SeriesField(data, "n_children", false, py, r.nChildren);
    }
  }

  /** Emissions are set exactly when the key is present, and must be an
      object keyed by species. */
  lemma FromDictEmissions(data: seq<(string, Json)>, py: PyText)
    ensures FromDict(data, py).Ok? ==> (FromDict(data, py).value.emissions.Some? <==> Has(data, "emissions"))
    ensures Has(data, "emissions") && !Get(data, "emissions").value.JObj? ==> FromDict(data, py).Err?
  {
    if FromDict(data, py).Ok? {
      var room := RequiredFields(data, py).value;
      assert WithOptionals(data, py, room) == FromDict(data, py);
      OptionalsFields(data, py, room);
    }
  }

  /** `from_dict` with the text conversions fixed: how one room document
      becomes a room. */
  function Builder(py: PyText): seq<(string, Json)> -> Result<RoomChemistry>
  {
    e => FromDict(e, py)
  }

  /** Rooms built from the first `n` entries of a list, keyed "0", "1", ... */
  function RoomList(items: seq<Json>, n: nat, build: seq<(string, Json)> -> Result<RoomChemistry>)
    : Result<seq<(string, RoomChemistry)>>
    requires n <= |items|
  {
    if n == 0 then Ok([])
    else
      var before :- RoomList(items, n - 1, build);
      match items[n - 1]
      case JObj(entries) =>
        var room :- build(entries);
        Ok(before + [(NatToString(n - 1), room)])
      case _ => Err("Each room entry must be an object/dict")
  }

  /** Rooms built from the first `n` entries of a mapping, under their keys. */
  function RoomMap(entries: seq<(string, Json)>, n: nat, build: seq<(string, Json)> -> Result<RoomChemistry>)
    : Result<seq<(string, RoomChemistry)>>
    requires n <= |entries|
  {
    if n == 0 then Ok([])
    else
      var before :- RoomMap(entries, n - 1, build);
      match entries[n - 1].1
      case JObj(room) =>
        var built :- build(room);
        Ok(before + [(entries[n - 1].0, built)])
      case _ => Err("Room entry must be a dict")
  }

  /** `parse_rooms_from_dict`: a list of rooms, an object whose "rooms" is a
      list or a mapping, or an object mapping keys to rooms. */
  function ParseRooms(data: Json, py: PyText): Result<seq<(string, RoomChemistry)>>
  {
    match data
    case JArr(items) => RoomList(items, |items|, Builder(py))
    case JObj(entries) =>
      if Has(entries, "rooms") then
        match Get(entries, "rooms").value
        case JArr(items) => RoomList(items, |items|, Builder(py))
        case JObj(rooms) => RoomMap(rooms, |rooms|, Builder(py))
        case _ => Err("'rooms' must be a list or a mapping")
      else RoomMap(entries, |entries|, Builder(py))
    case _ => Err("AttributeError")
  }

  /** A room list gives the keys "0" to "n-1" in order, each room built from
      its entry; any entry that is not an object is rejected. */
  lemma {:induction false} RoomListKeys(items: seq<Json>, n: nat, build: seq<(string, Json)> -> Result<RoomChemistry>)
    requires n <= |items|
    ensures RoomList(items, n, build).Ok? <==> forall i :: 0 <= i < n ==> items[i].JObj? && build(items[i].entries).Ok?
    ensures RoomList(items, n, build).Ok? ==> (|RoomList(items, n, build).value| == n &&
      forall i :: 0 <= i < n ==> RoomList(items, n, build).value[i] == (NatToString(i), build(items[i].entries).value))
  {
    if n > 0 {
      RoomListKeys(items, n - 1, build);
    }
  }

  /** A room mapping keeps its keys and order; any value that is not an
      object is rejected. */
  lemma {:induction false} RoomMapKeys(entries: seq<(string, Json)>, n: nat, build: seq<(string, Json)> -> Result<RoomChemistry>)
    requires n <= |entries|
    ensures RoomMap(entries, n, build).Ok? <==>
      forall i :: 0 <= i < n ==> entries[i].1.JObj? && build(entries[i].1.entries).Ok?
    ensures RoomMap(entries, n, build).Ok? ==> (|RoomMap(entries, n, build).value| == n &&
      forall i :: 0 <= i < n ==> RoomMap(entries, n, build).value[i] == (entries[i].0, build(entries[i].1.entries).value))
  {
    if n > 0 {
      RoomMapKeys(entries, n - 1, build);
    }
  }

  /** The keys of a room list are distinct. */
  lemma RoomListKeysDistinct(items: seq<Json>, build: seq<(string, Json)> -> Result<RoomChemistry>, i: nat, j: nat)
    requires RoomList(items, |items|, build).Ok? && i < j < |items|
    ensures |RoomList(items, |items|, build).value| == |items|
    ensures RoomList(items, |items|, build).value[i].0 != RoomList(items, |items|, build).value[j].0
  {
    RoomListKeys(items, |items|, build);
    if NatToString(i) == NatToString(j) {
      NatToStringInjective(i, j);
    }
  }

  lemma {:induction false} RoomListErrorPersists(items: seq<Json>, m: nat, n: nat,
                                                 build: seq<(string, Json)> -> Result<RoomChemistry>)
    requires m <= n <= |items|
    ensures RoomList(items, m, build).Err? ==> RoomList(items, n, build) == RoomList(items, m, build)
  {
    if m < n {
      RoomListErrorPersists(items, m, n - 1, build);
    }
  }

  lemma {:induction false} RoomMapErrorPersists(entries: seq<(string, Json)>, m: nat, n: nat,
                                                build: seq<(string, Json)> -> Result<RoomChemistry>)
    requires m <= n <= |entries|
    ensures RoomMap(entries, m, build).Err? ==> RoomMap(entries, n, build) == RoomMap(entries, m, build)
  {
    if m < n {
      RoomMapErrorPersists(entries, m, n - 1, build);
    }
  }

  /** One more list entry: a non-object or a failing build ends in its
      error, otherwise the room is appended under the entry's index. */
  lemma RoomListNext(items: seq<Json>, i: nat, build: seq<(string, Json)> -> Result<RoomChemistry>,
                     result: seq<(string, RoomChemistry)>)
    requires i < |items| && RoomList(items, i, build) == Ok(result)
    ensures !items[i].JObj? ==> RoomList(items, i + 1, build) == Err("Each room entry must be an object/dict")
    ensures items[i].JObj? && build(items[i].entries).Err? ==>
      RoomList(items, i + 1, build) == Err(build(items[i].entries).msg)
    ensures items[i].JObj? && build(items[i].entries).Ok? ==>
      RoomList(items, i + 1, build) == Ok(result + [(NatToString(i), build(items[i].entries).value)])
  {
  }

  /** One more mapping entry, as for lists but under the entry's key. */
  lemma RoomMapNext(entries: seq<(string, Json)>, i: nat, build: seq<(string, Json)> -> Result<RoomChemistry>,
                    result: seq<(string, RoomChemistry)>)
    requires i < |entries| && RoomMap(entries, i, build) == Ok(result)
    ensures !entries[i].1.JObj? ==> RoomMap(entries, i + 1, build) == Err("Room entry must be a dict")
    ensures entries[i].1.JObj? && build(entries[i].1.entries).Err? ==>
      RoomMap(entries, i + 1, build) == Err(build(entries[i].1.entries).msg)
    ensures entries[i].1.JObj? && build(entries[i].1.entries).Ok? ==>
      RoomMap(entries, i + 1, build) == Ok(result + [(entries[i].0, build(entries[i].1.entries).value)])
  {
  }

  /** The list loop of `parse_rooms_from_dict`, with `from_dict` passed in
      as `build`: rooms keyed by their index. */
  method BuildRoomList(items: seq<Json>, build: seq<(string, Json)> -> Result<RoomChemistry>)
    returns (r: Result<seq<(string, RoomChemistry)>>)
    ensures r == RoomList(items, |items|, build)
  {
    var result: seq<(string, RoomChemistry)> := [];
    for i := 0 to |items|
      invariant RoomList(items, i, build) == Ok(result)
    {
      RoomListNext(items, i, build, result);
      var roomObj := items[i];
      if !roomObj.JObj? {
        RoomListErrorPersists(items, i + 1, |items|, build);
        return Err("Each room entry must be an object/dict");
      }
      var room := build(roomObj.entries);
      if room.Err? {
        RoomListErrorPersists(items, i + 1, |items|, build);
        return Err(room.msg);
      }
      result := result + [(NatToString(i), room.value)];
    }
    return Ok(result);
  }

  /** The mapping loop of `parse_rooms_from_dict`: rooms under their own
      keys. */
  method BuildRoomMap(entries: seq<(string, Json)>, build: seq<(string, Json)> -> Result<RoomChemistry>)
    returns (r: Result<seq<(string, RoomChemistry)>>)
    ensures r == RoomMap(entries, |entries|, build)
  {
    var result: seq<(string, RoomChemistry)> := [];
    for i := 0 to |entries|
      invariant RoomMap(entries, i, build) == Ok(result)
    {
      RoomMapNext(entries, i, build, result);
      var v := entries[i].1;
      if !v.JObj? {
        RoomMapErrorPersists(entries, i + 1, |entries|, build);
        return Err("Room entry must be a dict");
      }
      var room := build(v.entries);
      if room.Err? {
        RoomMapErrorPersists(entries, i + 1, |entries|, build);
        return Err(room.msg);
      }
      result := result + [(entries[i].0, room.value)];
    }
    return Ok(result);
  }

  /** `parse_rooms_from_dict`. */
  method ParseRoomsFromDict(data: Json, py: PyText) returns (r: Result<seq<(string, RoomChemistry)>>)
    ensures r == ParseRooms(data, py)
  {
    if data.JArr? {
      r := BuildRoomList(data.items, Builder(py));
      return;
    }
    if data.JObj? && Has(data.entries, "rooms") {
      var roomsVal := Get(data.entries, "rooms").value;
      if roomsVal.JArr? {
        r := BuildRoomList(roomsVal.items, Builder(py));
      } else if roomsVal.JObj? {
        r := BuildRoomMap(roomsVal.entries, Builder(py));
      } else {
        r := Err("'rooms' must be a list or a mapping");
      }
      return;
    }
    if !data.JObj? {
      return Err("AttributeError");
    }
    r := BuildRoomMap(data.entries, Builder(py));
  }

  /** A wrapper object's explicit "continuous" wins over the default; a bare
      list takes the default. */
  lemma ContinuousOverride(values: seq<Json>, flag: Json, defaultContinuous: bool)
    ensures ContinuousFlag(JObj([("values", JArr(values)), ("continuous", flag)]), defaultContinuous) == Truthy(flag)
    ensures ContinuousFlag(JArr(values), defaultContinuous) == defaultContinuous
  {
    var entries := [("values", JArr(values)), ("continuous", flag)];
    assert entries[1].0 == "continuous";
    assert Has(entries, "continuous");
    assert Get(entries, "continuous") == Some(flag) by {
      assert entries[1..] == [("continuous", flag)];
    }
  }

  /** An empty series is rejected whichever form it takes. */
  lemma EmptySeriesRejected(defaultContinuous: bool, py: PyText)
    ensures MakeTimeDep(JArr([]), defaultContinuous, py) == Err("Time-dependent values list is empty")
    ensures MakeTimeDep(JObj([("values", JArr([]))]), defaultContinuous, py) == Err("Time-dependent values list is empty")
    ensures MakeBracketed(JArr([]), py) == Err("Bracketed values list is empty")
  {
    assert Get([("values", JArr([]))], "values") == Some(JArr([]));
  }

  /** A missing required key is reported as ValueError naming the key. */
  lemma MissingVolume(data: seq<(string, Json)>, py: PyText)
    requires !Has(data, "volume_in_m3")
    ensures FromDict(data, py) == Err("Missing required RoomChemistry key: 'volume_in_m3'")
  {
  }
}
