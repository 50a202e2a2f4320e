/** multiroom_model/room_factory.py: filling a room from already-parsed CSV
    columns. Emission columns are headed by a time, and each nonzero value
    in a column starts a bracket that ends at the next column's time; the
    variable and exposure files give time series with fixed interpolation
    flags. */
module RoomFactory {
  import opened Wrappers
  import opened PyOps
  import TimeDependent
  import Bracketed
  import opened RoomChemistryRecord

  /** Where a search for `\d` first succeeds at or after `i`. */
  function FirstDigit(s: string, i: nat): (r: Option<nat>)
    requires i <= |s|
    ensures r.Some? ==> i <= r.value < |s| && IsDecimal(s[r.value])
    ensures r.Some? ==> forall j :: i <= j < r.value ==> !IsDecimal(s[j])
    ensures r.None? ==> forall j :: i <= j < |s| ==> !IsDecimal(s[j])
    decreases |s| - i
  {
    if i == |s| then None
    else if IsDecimal(s[i]) then Some(i)
    else FirstDigit(s, i + 1)
  }

  /** The end of the greedy run of digits starting at `i`. */
  function DigitRun(s: string, i: nat): (r: nat)
    requires i <= |s|
    ensures i <= r <= |s|
    ensures forall j :: i <= j < r ==> IsDecimal(s[j])
    ensures r == |s| || !IsDecimal(s[r])
    decreases |s| - i
  {
    if i < |s| && IsDecimal(s[i]) then DigitRun(s, i + 1) else i
  }

  function Pow10(n: nat): (r: nat)
    ensures r >= 1
  {
    if n == 0 then 1 else 10 * Pow10(n - 1)
  }

  /** `float` of the matched text: the integer digits, then the fraction
      digits scaled down by their count. */
  function DecimalValue(whole: string, fraction: string): (r: real)
    requires forall i :: 0 <= i < |whole| ==> IsDecimal(whole[i])
    requires forall i :: 0 <= i < |fraction| ==> IsDecimal(fraction[i])
    ensures r >= 0.0
  {
    ParseDigits(whole) as real + ParseDigits(fraction) as real / Pow10(|fraction|) as real
  }

  /** `extract_time`: the first match of `\d+(\.\d+)?` in a column header, as
      a number. The digit run is greedy and the fraction is taken only when
      the point is followed by a digit. */
  function ExtractTime(header: string): (r: Result<real>)
    ensures r.Ok? <==> exists i :: 0 <= i < |header| && IsDecimal(header[i])
    ensures r.Err? ==> r.msg == "No time detected in the column"
    ensures r.Ok? ==> r.value >= 0.0
  {
    match FirstDigit(header, 0)
    case None => Err("No time detected in the column")
    case Some(start) =>
      var wholeEnd := DigitRun(header, start);
      if wholeEnd + 1 < |header| && header[wholeEnd] == '.' && IsDecimal(header[wholeEnd + 1]) then
        var end := DigitRun(header, wholeEnd + 1);
        Ok(DecimalValue(header[start..wholeEnd], header[wholeEnd + 1..end]))
      else
        Ok(DecimalValue(header[start..wholeEnd], []))
  }

  /** Nothing in `s` is a digit. */
  predicate NoDigits(s: string) {
    forall i :: 0 <= i < |s| ==> !IsDecimal(s[i])
  }

  /** `s` does not continue a number: it starts with neither a digit nor a
      point followed by a digit. */
  predicate Terminates(s: string) {
    |s| == 0 || (!IsDecimal(s[0]) && !(s[0] == '.' && |s| > 1 && IsDecimal(s[1])))
  }

  /** A search for a digit stops at `k` when nothing before it is a digit. */
  lemma FirstAt(s: string, k: nat)
    requires k < |s| && IsDecimal(s[k])
    requires forall j :: 0 <= j < k ==> !IsDecimal(s[j])
    ensures FirstDigit(s, 0) == Some(k)
  {
  }

  /** The greedy run from `i` ends at `end` when everything in between is a
      digit and nothing continues it. */
  lemma RunAt(s: string, i: nat, end: nat)
    requires i <= end <= |s|
    requires forall j :: i <= j < end ==> IsDecimal(s[j])
    requires end == |s| || !IsDecimal(s[end])
    ensures DigitRun(s, i) == end
  {
  }

  /** A header holding a whole number of seconds between text without
      digits gives that number back. */
  lemma ExtractWholeTime(prefix: string, n: nat, rest: string)
    requires NoDigits(prefix) && Terminates(rest)
    ensures ExtractTime(prefix + NatToString(n) + rest) == Ok(n as real)
  {
    var digits := NatToString(n);
    var s := prefix + digits + rest;
    var wholeEnd := |prefix| + |digits|;
    assert forall j :: 0 <= j < |prefix| ==> s[j] == prefix[j];
    assert forall j :: |prefix| <= j < wholeEnd ==> s[j] == digits[j - |prefix|];
    assert wholeEnd < |s| ==> s[wholeEnd] == rest[0];
    FirstAt(s, |prefix|);
    RunAt(s, |prefix|, wholeEnd);
    assert s[|prefix|..wholeEnd] == digits;
    if wholeEnd + 1 < |s| && s[wholeEnd] == '.' {
      assert s[wholeEnd + 1] == rest[1];
    }
    ParseNatToString(n);
    assert ParseDigits([]) == 0;
  }

  /** A header holding `n.m` gives `n` plus `m` scaled by its digit count. */
  lemma ExtractDecimalTime(prefix: string, n: nat, m: nat, rest: string)
    requires NoDigits(prefix) && (|rest| == 0 || !IsDecimal(rest[0]))
    ensures ExtractTime(prefix + NatToString(n) + "." + NatToString(m) + rest) ==
            Ok(n as real + m as real / Pow10(|NatToString(m)|) as real)
  {
    DecimalHeader(prefix, NatToString(n), NatToString(m), rest);
    ParseNatToString(n);
    ParseNatToString(m);
  }

  /** The match in `prefix + whole + "." + fraction + rest` is the whole
      decimal between the prefix and the rest. */
  lemma DecimalHeader(prefix: string, whole: string, fraction: string, rest: string)
    requires NoDigits(prefix) && (|rest| == 0 || !IsDecimal(rest[0]))
    requires |whole| > 0 && forall i :: 0 <= i < |whole| ==> IsDecimal(whole[i])
    requires |fraction| > 0 && forall i :: 0 <= i < |fraction| ==> IsDecimal(fraction[i])
    ensures ExtractTime(prefix + whole + "." + fraction + rest) == Ok(DecimalValue(whole, fraction))
  {
    var c := prefix + whole;
    var b := c + ".";
    var a := b + fraction;
    var s := a + rest;
    var wholeEnd := |c|;
    var end := |a|;
    assert forall j :: 0 <= j < |prefix| ==> c[j] == prefix[j];
    assert forall j :: |prefix| <= j < wholeEnd ==> c[j] == whole[j - |prefix|];
    assert forall j :: 0 <= j < |c| ==> b[j] == c[j];
    assert forall j :: 0 <= j < |b| ==> a[j] == b[j];
    assert forall j :: |b| <= j < |a| ==> a[j] == fraction[j - |b|];
    assert forall j :: 0 <= j < |a| ==> s[j] == a[j];
    assert end < |s| ==> s[end] == rest[0];
    assert s[wholeEnd] == '.';
    FirstAt(s, |prefix|);
    RunAt(s, |prefix|, wholeEnd);
    RunAt(s, wholeEnd + 1, end);
    assert s[|prefix|..wholeEnd] == whole;
    assert s[wholeEnd + 1..end] == fraction;
    FractionMatch(s, |prefix|, wholeEnd, end);
  }

  /** The value read from a header whose match has a fraction part. */
  lemma FractionMatch(s: string, start: nat, wholeEnd: nat, end: nat)
    requires start <= wholeEnd && wholeEnd + 1 < end <= |s|
    requires FirstDigit(s, 0) == Some(start) && DigitRun(s, start) == wholeEnd
    requires s[wholeEnd] == '.' && IsDecimal(s[wholeEnd + 1]) && DigitRun(s, wholeEnd + 1) == end
    ensures ExtractTime(s) == Ok(DecimalValue(s[start..wholeEnd], s[wholeEnd + 1..end]))
  {
  }

  /** `times = [extract_time(t) for t in time_cols]` over the first `n`
      headers. */
  function HeaderTimes(headers: seq<string>, n: nat): (r: Result<seq<real>>)
    requires n <= |headers|
    ensures r.Ok? <==> forall i :: 0 <= i < n ==> ExtractTime(headers[i]).Ok?
    ensures r.Ok? ==> |r.value| == n && forall i :: 0 <= i < n ==> ExtractTime(headers[i]) == Ok(r.value[i])
  {
    if n == 0 then Ok([])
    else
      var before :- HeaderTimes(headers, n - 1);
      var t :- ExtractTime(headers[n - 1]);
      Ok(before + [t])
  }

  /** The brackets of one species row from its first `n` values: a nonzero
      value in column `j` gives `(times[j], times[j + 1], v)`, and one in
      the last column indexes past the end of `times`. */
  function SpeciesBrackets(times: seq<real>, values: seq<real>, n: nat): Result<seq<(real, real, real)>>
    requires n <= |values|
  {
    if n == 0 then Ok([])
    else
      var before :- SpeciesBrackets(times, values, n - 1);
      var j := n - 1;
      if values[j] != 0.0 then
        if j + 1 < |times| then Ok(before + [(times[j], times[j + 1], values[j])])
        else Err("IndexError: list index out of range")
      else Ok(before)
  }

  /** The columns among the first `n` that hold a nonzero value, in column
      order. */
  function NonzeroColumns(values: seq<real>, n: nat): (r: seq<nat>)
    requires n <= |values|
    ensures forall k :: 0 <= k < |r| ==> r[k] < n && values[r[k]] != 0.0
    ensures forall j :: 0 <= j < n && values[j] != 0.0 ==> j in r
    ensures forall k, l :: 0 <= k < l < |r| ==> r[k] < r[l]
  {
    if n == 0 then []
    else NonzeroColumns(values, n - 1) + (if values[n - 1] != 0.0 then [n - 1] else [])
  }

  /** A row builds its brackets unless a nonzero value sits in a column with
      no next time; the brackets are then one per nonzero column, in column
      order, each running from its column's time to the next. */
  lemma {:induction false} SpeciesBracketsFaithful(times: seq<real>, values: seq<real>, n: nat)
    requires n <= |values|
    ensures SpeciesBrackets(times, values, n).Ok? <==>
      forall j :: 0 <= j < n && values[j] != 0.0 ==> j + 1 < |times|
    ensures SpeciesBrackets(times, values, n).Ok? ==>
      var r := SpeciesBrackets(times, values, n).value;
      var cols := NonzeroColumns(values, n);
      |r| == |cols| &&
      forall k :: 0 <= k < |r| ==> (cols[k] + 1 < |times| && r[k] == (times[cols[k]], times[cols[k] + 1], values[cols[k]]))
  {
    if n > 0 {
      SpeciesBracketsFaithful(times, values, n - 1);
    }
  }

  /** A nonzero value in the last column of a row as wide as the header
      raises; an all-zero row builds no bracket, which the bracketed-value
      constructor then rejects. */
  lemma EdgeRows(times: seq<real>, values: seq<real>)
    requires |values| == |times|
    ensures |values| > 0 && values[|values| - 1] != 0.0 ==> SpeciesBrackets(times, values, |values|).Err?
    ensures (forall j :: 0 <= j < |values| ==> values[j] == 0.0) ==>
      SpeciesBrackets(times, values, |values|) == Ok([]) &&
      Bracketed.Make(SpeciesBrackets(times, values, |values|).value).Err?
  {
    SpeciesBracketsFaithful(times, values, |values|);
    if forall j :: 0 <= j < |values| ==> values[j] == 0.0 {
      ZeroRowBuildsNothing(times, values, |values|);
    }
  }

  /** A row of zeros builds no bracket. */
  lemma {:induction false} ZeroRowBuildsNothing(times: seq<real>, values: seq<real>, n: nat)
    requires n <= |values| && forall j :: 0 <= j < |values| ==> values[j] == 0.0
    ensures SpeciesBrackets(times, values, n) == Ok([])
  {
    if n > 0 {
      ZeroRowBuildsNothing(times, values, n - 1);
    }
  }

  lemma {:induction false} BracketErrorPersists(times: seq<real>, values: seq<real>, m: nat, n: nat)
    requires m <= n <= |values|
    ensures SpeciesBrackets(times, values, m).Err? ==> SpeciesBrackets(times, values, n) == SpeciesBrackets(times, values, m)
  {
    if m < n {
      BracketErrorPersists(times, values, m, n - 1);
    }
  }

  /** The inner loop of `populate_room_with_emissions_file`: one species row. */
  method BuildBrackets(times: seq<real>, values: seq<real>) returns (r: Result<seq<(real, real, real)>>)
    ensures r == SpeciesBrackets(times, values, |values|)
  {
    var brackets: seq<(real, real, real)> := [];
    for j := 0 to |values|
      invariant SpeciesBrackets(times, values, j) == Ok(brackets)
    {
      if values[j] != 0.0 {
        if j + 1 >= |times| {
          BracketErrorPersists(times, values, j + 1, |values|);
          return Err("IndexError: list index out of range");
        }
        brackets := brackets + [(times[j], times[j + 1], values[j])];
      }
    }
    return Ok(brackets);
  }

  /** The position of key `k` in an insertion-ordered dict: its first entry. */
  function KeyIndex<V>(d: seq<(string, V)>, k: string): (r: Option<nat>)
    ensures r.None? <==> forall i :: 0 <= i < |d| ==> d[i].0 != k
    ensures r.Some? ==> r.value < |d| && d[r.value].0 == k && forall i :: 0 <= i < r.value ==> d[i].0 != k
  {
    if |d| == 0 then None
    else if d[0].0 == k then Some(0)
    else match KeyIndex(d[1..], k)
      case None => None
      case Some(i) => Some(i + 1)
  }

  /** `d[k]` on an insertion-ordered dict, or None when `k` is absent. */
  function Lookup<V>(d: seq<(string, V)>, k: string): (r: Option<V>)
    ensures r.Some? <==> KeyIndex(d, k).Some?
    ensures r.Some? ==> r.value == d[KeyIndex(d, k).value].1
  {
    match KeyIndex(d, k)
    case None => None
    case Some(i) => Some(d[i].1)
  }

  /** Every key appears at most once. */
  predicate DistinctKeys<V>(d: seq<(string, V)>)
  {
    forall i, j :: 0 <= i < j < |d| ==> d[i].0 != d[j].0
  }

  /** `d[k] = v` on an insertion-ordered dict: an existing key keeps its
      place and takes the new value, a new key goes last. */
  function SetEntry<V>(d: seq<(string, V)>, k: string, v: V): (r: seq<(string, V)>)
    ensures KeyIndex(d, k).Some? ==> r == d[KeyIndex(d, k).value := (k, v)]
    ensures KeyIndex(d, k).None? ==> r == d + [(k, v)]
  {
    if |d| == 0 then [(k, v)]
    else if d[0].0 == k then [(k, v)] + d[1..]
    else [d[0]] + SetEntry(d[1..], k, v)
  }

  /** Two dicts with the same keys in the same places find a key at the
      same place. */
  lemma SameKeysSameIndex<V>(d: seq<(string, V)>, r: seq<(string, V)>, key: string)
    requires |r| == |d| && forall j :: 0 <= j < |d| ==> r[j].0 == d[j].0
    ensures KeyIndex(r, key) == KeyIndex(d, key)
  {
    if KeyIndex(d, key).Some? {
      assert r[KeyIndex(d, key).value].0 == key;
    }
    if KeyIndex(r, key).Some? {
      assert d[KeyIndex(r, key).value].0 == key;
    }
  }

  /** A key is found in an extended dict where it was found before, or else
      at the new last entry. */
  lemma AppendIndex<V>(d: seq<(string, V)>, e: (string, V), key: string)
    ensures KeyIndex(d + [e], key) ==
      if KeyIndex(d, key).Some? then KeyIndex(d, key) else if e.0 == key then Some(|d|) else None
  {
    var r := d + [e];
    if KeyIndex(d, key).Some? {
      assert r[KeyIndex(d, key).value].0 == key;
    } else if e.0 == key {
      assert r[|d|].0 == key;
    }
  }

  /** After `d[k] = v`, looking up `k` gives `v` and every other key gives
      what it gave before; keys stay distinct. */
  lemma LookupSetEntry<V>(d: seq<(string, V)>, k: string, v: V, key: string)
    requires DistinctKeys(d)
    ensures Lookup(SetEntry(d, k, v), key) == if key == k then Some(v) else Lookup(d, key)
    ensures DistinctKeys(SetEntry(d, k, v))
  {
    var r := SetEntry(d, k, v);
    if KeyIndex(d, k).Some? {
      var i := KeyIndex(d, k).value;
      assert forall j :: 0 <= j < |d| ==> r[j].0 == d[j].0;
      SameKeysSameIndex(d, r, key);
      if key != k && KeyIndex(d, key).Some? {
        assert KeyIndex(d, key).value != i;
      }
    } else {
      AppendIndex(d, (k, v), key);
    }
  }

  /** The last of the first `n` rows named `k`. */
  function LastIndex(names: seq<string>, k: string, n: nat): (r: Option<nat>)
    requires n <= |names|
    ensures r.None? <==> forall i :: 0 <= i < n ==> names[i] != k
    ensures r.Some? ==> r.value < n && names[r.value] == k && forall i :: r.value < i < n ==> names[i] != k
  {
    if n == 0 then None
    else if names[n - 1] == k then Some(n - 1)
    else LastIndex(names, k, n - 1)
  }

  /** The first `n` rows keyed by name in turn, each row's value given by
      `build`; the first row whose value fails stops the table. */
  function Keyed<V>(names: seq<string>, rows: seq<seq<real>>, build: seq<real> -> Result<V>, n: nat)
    : Result<seq<(string, Option<V>)>>
    requires n <= |names| == |rows|
  {
    if n == 0 then Ok([])
    else
      var before :- Keyed(names, rows, build, n - 1);
      var value :- build(rows[n - 1]);
      Ok(SetEntry(before, names[n - 1], Some(value)))
  }

  /** The table is built exactly when every row's value is. */
  lemma {:induction false} KeyedOk<V>(names: seq<string>, rows: seq<seq<real>>, build: seq<real> -> Result<V>, n: nat)
    requires n <= |names| == |rows|
    ensures Keyed(names, rows, build, n).Ok? <==> forall i :: 0 <= i < n ==> build(rows[i]).Ok?
  {
    if n > 0 {
      KeyedOk(names, rows, build, n - 1);
    }
  }

  /** With distinct names, a built table holds one entry per row, in row order. */
  lemma {:induction false} KeyedFaithful<V>(names: seq<string>, rows: seq<seq<real>>, build: seq<real> -> Result<V>, n: nat)
    requires n <= |names| == |rows|
    requires forall i, j :: 0 <= i < j < |names| ==> names[i] != names[j]
    requires Keyed(names, rows, build, n).Ok?
    ensures |Keyed(names, rows, build, n).value| == n
    ensures forall i :: 0 <= i < n ==>
      build(rows[i]).Ok? && Keyed(names, rows, build, n).value[i] == (names[i], Some(build(rows[i]).value))
  {
    if n > 0 {
      var before := Keyed(names, rows, build, n - 1).value;
      KeyedFaithful(names, rows, build, n - 1);
      forall i | 0 <= i < |before| ensures before[i].0 != names[n - 1] {
        assert before[i].0 == names[i];
      }
      assert Keyed(names, rows, build, n).value == before + [(names[n - 1], Some(build(rows[n - 1]).value))];
    }
  }

  /** Repeated names are allowed: a built table has each key once, and a
      name looks up the value of its last row, as repeated assignments to a
      dict leave it. */
  lemma {:induction false} KeyedLookup<V>(names: seq<string>, rows: seq<seq<real>>, build: seq<real> -> Result<V>, n: nat, k: string)
    requires n <= |names| == |rows|
    requires Keyed(names, rows, build, n).Ok?
    ensures DistinctKeys(Keyed(names, rows, build, n).value)
    ensures LastIndex(names, k, n).None? ==> Lookup(Keyed(names, rows, build, n).value, k).None?
    ensures LastIndex(names, k, n).Some? ==>
      build(rows[LastIndex(names, k, n).value]).Ok? &&
      Lookup(Keyed(names, rows, build, n).value, k) == Some(Some(build(rows[LastIndex(names, k, n).value]).value))
  {
    if n > 0 {
      var before := Keyed(names, rows, build, n - 1).value;
      KeyedLookup(names, rows, build, n - 1, k);
      LookupSetEntry(before, names[n - 1], Some(build(rows[n - 1]).value), k);
    }
  }

  /** Once a row fails, the table fails with that row's error. */
  lemma {:induction false} KeyedErrorPersists<V>(names: seq<string>, rows: seq<seq<real>>, build: seq<real> -> Result<V>, m: nat, n: nat)
    requires m <= n <= |names| == |rows|
    ensures Keyed(names, rows, build, m).Err? ==> Keyed(names, rows, build, n) == Keyed(names, rows, build, m)
  {
    if m < n {
      KeyedErrorPersists(names, rows, build, m, n - 1);
    }
  }

  /** The bracketed value of one emissions row, or the first error building it. */
  function RowValue(times: seq<real>, row: seq<real>): (r: Result<Bracketed.TimeBracketedValue>)
    ensures r.Ok? <==> SpeciesBrackets(times, row, |row|).Ok? && Bracketed.Make(SpeciesBrackets(times, row, |row|).value).Ok?
    ensures r.Ok? ==> r.value == Bracketed.TimeBracketedValue(SpeciesBrackets(times, row, |row|).value)
  {
    var brackets :- SpeciesBrackets(times, row, |row|);
    Bracketed.Make(brackets)
  }

  /** The emissions of the first `n` species rows, keyed by species name. */
  function EmissionsTable(times: seq<real>, species: seq<string>, table: seq<seq<real>>, n: nat)
    : Result<seq<(string, Option<Bracketed.TimeBracketedValue>)>>
    requires n <= |species| == |table|
  {
    Keyed(species, table, row => RowValue(times, row), n)
  }

  /** The emissions table is built exactly when every row yields a bracketed
      value; with distinct species names it then holds one entry per row, in
      row order, each the bracketed value built from that row. */
  lemma EmissionsTableFaithful(times: seq<real>, species: seq<string>, table: seq<seq<real>>)
    requires |species| == |table|
    requires forall i, j :: 0 <= i < j < |species| ==> species[i] != species[j]
    ensures EmissionsTable(times, species, table, |species|).Ok? <==>
      forall i :: 0 <= i < |table| ==> SpeciesBrackets(times, table[i], |table[i]|).Ok? &&
                                       Bracketed.Make(SpeciesBrackets(times, table[i], |table[i]|).value).Ok?
    ensures EmissionsTable(times, species, table, |species|).Ok? ==>
      |EmissionsTable(times, species, table, |species|).value| == |species| &&
      forall i :: 0 <= i < |species| ==>
        (SpeciesBrackets(times, table[i], |table[i]|).Ok? &&
         EmissionsTable(times, species, table, |species|).value[i] ==
           (species[i], Some(Bracketed.TimeBracketedValue(SpeciesBrackets(times, table[i], |table[i]|).value))))
  {
    var build := row => RowValue(times, row);
    KeyedOk(species, table, build, |species|);
    if EmissionsTable(times, species, table, |species|).Ok? {
      KeyedFaithful(species, table, build, |species|);
    }
  }

  /** With species names repeated, each species' emission is the bracketed
      value of its last row, and each species is listed once. */
  lemma EmissionsLookup(times: seq<real>, species: seq<string>, table: seq<seq<real>>, s: string)
    requires |species| == |table|
    requires EmissionsTable(times, species, table, |species|).Ok?
    ensures DistinctKeys(EmissionsTable(times, species, table, |species|).value)
    ensures LastIndex(species, s, |species|).None? ==> Lookup(EmissionsTable(times, species, table, |species|).value, s).None?
    ensures LastIndex(species, s, |species|).Some? ==>
      RowValue(times, table[LastIndex(species, s, |species|).value]).Ok? &&
      Lookup(EmissionsTable(times, species, table, |species|).value, s) ==
        Some(Some(RowValue(times, table[LastIndex(species, s, |species|).value]).value))
  {
    KeyedLookup(species, table, row => RowValue(times, row), |species|, s);
  }

  lemma EmissionsErrorPersists(times: seq<real>, species: seq<string>, table: seq<seq<real>>, m: nat, n: nat)
    requires m <= n <= |species| == |table|
    ensures EmissionsTable(times, species, table, m).Err? ==>
      EmissionsTable(times, species, table, n) == EmissionsTable(times, species, table, m)
  {
    KeyedErrorPersists(species, table, row => RowValue(times, row), m, n);
  }

  lemma {:induction false} TimesErrorPersists(headers: seq<string>, m: nat, n: nat)
    requires m <= n <= |headers|
    ensures HeaderTimes(headers, m).Err? ==> HeaderTimes(headers, n) == HeaderTimes(headers, m)
  {
    if m < n {
      TimesErrorPersists(headers, m, n - 1);
    }
  }

  /** One more header either extends the times read so far or fails with
      its own error. */
  lemma HeaderTimesNext(headers: seq<string>, i: nat, times: seq<real>)
    requires i < |headers| && HeaderTimes(headers, i) == Ok(times)
    ensures ExtractTime(headers[i]).Ok? ==> HeaderTimes(headers, i + 1) == Ok(times + [ExtractTime(headers[i]).value])
    ensures ExtractTime(headers[i]).Err? ==> HeaderTimes(headers, i + 1) == Err(ExtractTime(headers[i]).msg)
  {
  }

  /** The header comprehension: every time column's header read as a time. */
  method ReadTimes(headers: seq<string>) returns (r: Result<seq<real>>)
    ensures r == HeaderTimes(headers, |headers|)
  {
    var times: seq<real> := [];
    for i := 0 to |headers|
      invariant HeaderTimes(headers, i) == Ok(times)
    {
      var t := ExtractTime(headers[i]);
      HeaderTimesNext(headers, i, times);
      if t.Err? {
        TimesErrorPersists(headers, i + 1, |headers|);
        return Err(t.msg);
      }
      times := times + [t.value];
    }
    return Ok(times);
  }

  /** `populate_room_with_emissions_file` on the parsed file: `headers` are
      the time columns after "species", `species` the first column and
      `table[i]` the values of row `i` under those headers. The room's
      emissions are replaced by the table built from the rows. */
  method PopulateWithEmissions(room: RoomChemistry, headers: seq<string>, species: seq<string>, table: seq<seq<real>>)
    returns (r: Result<RoomChemistry>)
    requires |species| == |table|
    ensures HeaderTimes(headers, |headers|).Err? ==> r == Err(HeaderTimes(headers, |headers|).msg)
    ensures HeaderTimes(headers, |headers|).Ok? ==>
      var times := HeaderTimes(headers, |headers|).value;
      (r.Ok? <==> EmissionsTable(times, species, table, |species|).Ok?) &&
      (r.Ok? ==> r.value == room.(emissions := Some(EmissionsTable(times, species, table, |species|).value)))
  {
    var times := ReadTimes(headers);
    if times.Err? {
      return Err(times.msg);
    }
    var emissions: seq<(string, Option<Bracketed.TimeBracketedValue>)> := [];
    for i := 0 to |species|
      invariant EmissionsTable(times.value, species, table, i) == Ok(emissions)
    {
      var brackets := BuildBrackets(times.value, table[i]);
      if brackets.Err? {
        EmissionsErrorPersists(times.value, species, table, i + 1, |species|);
        return Err(brackets.msg);
      }
      var value := Bracketed.Make(brackets.value);
      if value.Err? {
        EmissionsErrorPersists(times.value, species, table, i + 1, |species|);
        return Err(value.msg);
      }
      emissions := SetEntry(emissions, species[i], Some(value.value));
    }
    return Ok(room.(emissions := Some(emissions)));
  }

  /** `list(zip(times, column))`: pairs up to the shorter of the two. */
  function Zip(times: seq<real>, column: seq<real>): (r: seq<(real, real)>)
    ensures |r| == if |times| < |column| then |times| else |column|
    ensures forall i :: 0 <= i < |r| ==> r[i] == (times[i], column[i])
  {
    if |times| == 0 || |column| == 0 then [] else [(times[0], column[0])] + Zip(times[1..], column[1..])
  }

  /** The time series `TimeDependentValue` accepts from a column: a
      nonempty one with strictly increasing times. */
  predicate Accepted(times: seq<real>, column: seq<real>) {
    |Zip(times, column)| > 0 && TimeDependent.TimesIncreasing(Zip(times, column))
  }

  /** `populate_room_with_tvar_file` on the parsed columns: temperature,
      humidity and air change become continuous series, the light switch a
      stepwise one; the other fields are untouched. */
  method PopulateWithTvar(room: RoomChemistry, times: seq<real>, temp: seq<real>, rh: seq<real>,
                          airchange: seq<real>, lightSwitch: seq<real>) returns (r: Result<RoomChemistry>)
    ensures r.Ok? <==> Accepted(times, temp) && Accepted(times, rh) && Accepted(times, airchange) && Accepted(times, lightSwitch)
    ensures r.Ok? ==> r.value == room.(
      tempInKelvin := Some(TimeDependent.TimeDependentValue(Zip(times, temp), true)),
      rhInPercent := Some(TimeDependent.TimeDependentValue(Zip(times, rh), true)),
      airchangeInPerSecond := Some(TimeDependent.TimeDependentValue(Zip(times, airchange), true)),
      lightSwitch := Some(TimeDependent.TimeDependentValue(Zip(times, lightSwitch), false)))
  {
    var t :- TimeDependent.Make(Zip(times, temp), true);
    var h :- TimeDependent.Make(Zip(times, rh), true);
    var a :- TimeDependent.Make(Zip(times, airchange), true);
    var l :- TimeDependent.Make(Zip(times, lightSwitch), false);
    return Ok(room.(tempInKelvin := Some(t), rhInPercent := Some(h), airchangeInPerSecond := Some(a), lightSwitch := Some(l)));
  }

  /** `populate_room_with_expos_file` on the parsed columns: both head
      counts become stepwise series. */
  method PopulateWithExpos(room: RoomChemistry, times: seq<real>, adults: seq<real>, children: seq<real>)
    returns (r: Result<RoomChemistry>)
    ensures r.Ok? <==> Accepted(times, adults) && Accepted(times, children)
    ensures r.Ok? ==> r.value == room.(
      nAdults := Some(TimeDependent.TimeDependentValue(Zip(times, adults), false)),
      nChildren := Some(TimeDependent.TimeDependentValue(Zip(times, children), false)))
  {
    var a :- TimeDependent.Make(Zip(times, adults), false);
    var c :- TimeDependent.Make(Zip(times, children), false);
    return Ok(room.(nAdults := Some(a), nChildren := Some(c)));
  }

  /** What the flags mean between two column times: a stepwise column (the
      light switch, the head counts) holds the earlier row's value, and a
      continuous one (temperature, humidity, air change) interpolates. */
  lemma BetweenRows(times: seq<real>, column: seq<real>, i: nat, t: real)
    requires Accepted(times, column) && i + 1 < |Zip(times, column)|
    requires times[i] < t < times[i + 1]
    ensures TimeDependent.ValueAtTime(TimeDependent.TimeDependentValue(Zip(times, column), false), t) == Ok(column[i])
    ensures TimeDependent.ValueAtTime(TimeDependent.TimeDependentValue(Zip(times, column), true), t) ==
            Ok(TimeDependent.Interpolate(times[i], column[i], times[i + 1], column[i + 1], t))
  {
    TimeDependent.BetweenSamples(TimeDependent.TimeDependentValue(Zip(times, column), false), i, t);
    TimeDependent.BetweenSamples(TimeDependent.TimeDependentValue(Zip(times, column), true), i, t);
  }
}
