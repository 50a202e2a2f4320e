/** multiroom_model/bracketed_value.py: a variable that takes a value inside
    bracketed intervals of time, stored as `(start, end, value)` triples. */
module Bracketed {
  import opened Wrappers

  datatype TimeBracketedValue = TimeBracketedValue(brackets: seq<(real, real, real)>)

  /** Every triple before the last one has start < end (the last is not checked). */
  predicate OrderedExceptLast(s: seq<(real, real, real)>) {
    forall i :: 0 <= i < |s| - 1 ==> s[i].0 < s[i].1
  }

  /** Every triple, the last included, has start < end. */
  predicate AllOrdered(s: seq<(real, real, real)>) {
    forall i :: 0 <= i < |s| ==> s[i].0 < s[i].1
  }

  /** The validation loop `for i in range(len(values) - 1)`, from index `i`. */
  function CheckedFrom(s: seq<(real, real, real)>, i: nat): (r: bool)
    requires i <= |s|
    ensures r <==> forall j :: i <= j < |s| - 1 ==> s[j].0 < s[j].1
    decreases |s| - i
  {
    if i + 1 >= |s| then true
    else if s[i].0 >= s[i].1 then false
    else CheckedFrom(s, i + 1)
  }

  /** The constructor as written: an empty list and an out-of-order triple
      other than the last are rejected. */
  function Make(values: seq<(real, real, real)>): (r: Result<TimeBracketedValue>)
    ensures |values| == 0 ==> r == Err("no times provided")
    ensures |values| > 0 && !OrderedExceptLast(values) ==> r == Err("times were not in order")
    ensures r.Ok? <==> |values| > 0 && OrderedExceptLast(values)
    ensures r.Ok? ==> r.value.brackets == values
  {
    if |values| == 0 then Err("no times provided")
    else if !CheckedFrom(values, 0) then Err("times were not in order")
    else Ok(TimeBracketedValue(values))
  }

  /** `values()`: the stored triples. */
  function Values(b: TimeBracketedValue): (r: seq<(real, real, real)>)
    ensures r == b.brackets
  {
    b.brackets
  }

  /** The first index in `[i, limit)` whose closed bracket contains `t`. */
  function FirstContaining(s: seq<(real, real, real)>, t: real, i: nat, limit: nat): (r: Option<nat>)
    requires i <= limit <= |s|
    ensures r.Some? ==> i <= r.value < limit && s[r.value].0 <= t <= s[r.value].1
    ensures r.Some? ==> forall j :: i <= j < r.value ==> !(s[j].0 <= t <= s[j].1)
    ensures r.None? ==> forall j :: i <= j < limit ==> !(s[j].0 <= t <= s[j].1)
    decreases limit - i
  {
    if i == limit then None
    else if s[i].0 <= t <= s[i].1 then Some(i)
    else FirstContaining(s, t, i + 1, limit)
  }

  /** `value_at_time` as written: only the brackets before the last are searched. */
  function ValueAtTime(b: TimeBracketedValue, t: real): (r: real)
  {
    var s := b.brackets;
    var limit := if |s| == 0 then 0 else |s| - 1;
    match FirstContaining(s, t, 0, limit)
    case Some(i) => s[i].2
    case None => 0.0
  }

  /** The first consulted bracket containing `t` supplies the value. */
  lemma FirstMatchWins(b: TimeBracketedValue, t: real, i: nat)
    requires i < |b.brackets| - 1
    requires b.brackets[i].0 <= t <= b.brackets[i].1
    requires forall j :: 0 <= j < i ==> !(b.brackets[j].0 <= t <= b.brackets[j].1)
    ensures ValueAtTime(b, t) == b.brackets[i].2
  {
    var r := FirstContaining(b.brackets, t, 0, |b.brackets| - 1);
    assert r.Some?;
    assert r.value == i;
  }

  /** A time outside every bracket but the last reads 0. */
  lemma OutsideReadsZero(b: TimeBracketedValue, t: real)
    requires forall j :: 0 <= j < |b.brackets| - 1 ==> !(b.brackets[j].0 <= t <= b.brackets[j].1)
    ensures ValueAtTime(b, t) == 0.0
  {
    var limit := if |b.brackets| == 0 then 0 else |b.brackets| - 1;
    assert FirstContaining(b.brackets, t, 0, limit).None?;
  }

  /** The last bracket is never consulted: a single-bracket value reads 0 everywhere,
      even inside its own bracket. */
  lemma SingleBracketReadsZero(start: real, end: real, v: real, t: real)
    ensures ValueAtTime(TimeBracketedValue([(start, end, v)]), t) == 0.0
  {
  }

  /** The single-bracket value `[(0, 3600, 10)]`, accepted by the constructor, reads 0
      at t = 100, inside its only bracket. */
  lemma SingleBracketCounterexample()
    ensures Make([(0.0, 3600.0, 10.0)]).Ok?
    ensures ValueAtTime(TimeBracketedValue([(0.0, 3600.0, 10.0)]), 100.0) == 0.0
    ensures 0.0 <= 100.0 <= 3600.0
  {
  }

  /** The evidently intended constructor: every triple, the last included, is checked. */
  function MakeChecked(values: seq<(real, real, real)>): (r: Result<TimeBracketedValue>)
    ensures r.Ok? <==> |values| > 0 && AllOrdered(values)
    ensures r.Ok? ==> r.value.brackets == values
  {
    if |values| == 0 then Err("no times provided")
    else if !CheckedFrom(values, 0) || values[|values| - 1].0 >= values[|values| - 1].1 then Err("times were not in order")
    else Ok(TimeBracketedValue(values))
  }

  /** The evidently intended lookup: every bracket, the last included, is searched. */
  function ValueAtTimeAllBrackets(b: TimeBracketedValue, t: real): (r: real)
  {
    match FirstContaining(b.brackets, t, 0, |b.brackets|)
    case Some(i) => b.brackets[i].2
    case None => 0.0
  }

  /** The intended lookup returns the value of the first bracket containing `t`,
      whichever its position, and 0 when no bracket contains `t`. */
  lemma AllBracketsLookup(b: TimeBracketedValue, t: real)
    ensures (exists i :: 0 <= i < |b.brackets| && b.brackets[i].0 <= t <= b.brackets[i].1) ==>
      exists i :: 0 <= i < |b.brackets| && b.brackets[i].0 <= t <= b.brackets[i].1 &&
        (forall j :: 0 <= j < i ==> !(b.brackets[j].0 <= t <= b.brackets[j].1)) &&
        ValueAtTimeAllBrackets(b, t) == b.brackets[i].2
    ensures (forall i :: 0 <= i < |b.brackets| ==> !(b.brackets[i].0 <= t <= b.brackets[i].1)) ==>
      ValueAtTimeAllBrackets(b, t) == 0.0
  {
    var r := FirstContaining(b.brackets, t, 0, |b.brackets|);
    if r.Some? {
      assert b.brackets[r.value].0 <= t <= b.brackets[r.value].1;
    }
  }

  /** On brackets that do not contain the time, both lookups agree: the two
      differ only when `t` is found in the last bracket alone. */
  lemma LookupsDifferOnlyInLastBracket(b: TimeBracketedValue, t: real)
    requires |b.brackets| > 0
    requires !(b.brackets[|b.brackets| - 1].0 <= t <= b.brackets[|b.brackets| - 1].1)
    ensures ValueAtTime(b, t) == ValueAtTimeAllBrackets(b, t)
  {
    var s := b.brackets;
    var short := FirstContaining(s, t, 0, |s| - 1);
    var full := FirstContaining(s, t, 0, |s|);
    if short.Some? {
      if full.None? || full.value < short.value {
        assert false;
      }
    }
  }
}
