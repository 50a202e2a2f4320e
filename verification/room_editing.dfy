/** The room editing panel: the editor's own validated value types, the room
    composition editor that keeps "other" at the remainder of 100%, the two
    table editors that turn rows into validated values, and the emissions
    editor's species dictionary. */
module RoomEditing {
  import opened Wrappers
  import Surfaces
  import Bracketed

  // ---------------------------------------------------------------------------
  // The editor's validated value types.

  /** Every adjacent pair of rows has strictly increasing times. */
  predicate StrictlyIncreasing(s: seq<(real, real)>)
  {
    forall i :: 0 <= i < |s| - 1 ==> s[i].0 < s[i + 1].0
  }

  /** The first adjacent pair, from `i` on, whose times do not increase. */
  function FirstDisorder(s: seq<(real, real)>, i: nat): (r: Option<nat>)
    requires i <= |s|
    ensures r.None? <==> forall j :: i <= j < |s| - 1 ==> s[j].0 < s[j + 1].0
    ensures r.Some? ==> i <= r.value < |s| - 1 && s[r.value].0 >= s[r.value + 1].0
    decreases |s| - i
  {
    if i + 1 >= |s| then None
    else if s[i].0 >= s[i + 1].0 then Some(i)
    else FirstDisorder(s, i + 1)
  }

  /** The editor's `TimeDependentValue(values)`: an empty list raises "no times
      provided", any adjacent pair with non-increasing time "times not in order";
      otherwise the rows are kept as given. */
  function ValidateTimeValues(values: seq<(real, real)>): (r: Result<seq<(real, real)>>)
    ensures |values| == 0 ==> r == Err("no times provided")
    ensures |values| > 0 && !StrictlyIncreasing(values) ==> r == Err("times not in order")
    ensures r.Ok? <==> |values| > 0 && StrictlyIncreasing(values)
    ensures r.Ok? ==> r.value == values
  {
    if |values| == 0 then Err("no times provided")
    else if FirstDisorder(values, 0).Some? then Err("times not in order")
    else Ok(values)
  }

  /** The first triple, from `i` on, whose start is not before its end. */
  function FirstBadBracket(s: seq<(real, real, real)>, i: nat): (r: Option<nat>)
    requires i <= |s|
    ensures r.None? <==> forall j :: i <= j < |s| ==> s[j].0 < s[j].1
    ensures r.Some? ==> i <= r.value < |s| && s[r.value].0 >= s[r.value].1
    decreases |s| - i
  {
    if i >= |s| then None
    else if s[i].0 >= s[i].1 then Some(i)
    else FirstBadBracket(s, i + 1)
  }

  /** The editor's `TimeBracketedValue(values)`: an empty list raises "no times
      provided"; every triple, the last one included, must have start < end. */
  function ValidateBrackets(values: seq<(real, real, real)>): (r: Result<seq<(real, real, real)>>)
    ensures |values| == 0 ==> r == Err("no times provided")
    ensures |values| > 0 && !Bracketed.AllOrdered(values) ==> r == Err("start time must be < end time")
    ensures r.Ok? <==> |values| > 0 && Bracketed.AllOrdered(values)
    ensures r.Ok? ==> r.value == values
  {
    if |values| == 0 then Err("no times provided")
    else if FirstBadBracket(values, 0).Some? then Err("start time must be < end time")
    else Ok(values)
  }

  /** Whatever the editor accepts the building model's constructor accepts too,
      with the same triples; the editor is the stricter of the two. */
  lemma EditorBracketsAcceptedByModel(values: seq<(real, real, real)>)
    requires ValidateBrackets(values).Ok?
    ensures Bracketed.Make(values).Ok? && Bracketed.Make(values).value.brackets == values
  {
  }

  /** A last triple ending before it starts passes the building model's check
      but not the editor's. */
  lemma EditorStricterOnLastBracket()
    ensures Bracketed.Make([(0.0, 1.0, 5.0), (3.0, 2.0, 5.0)]).Ok?
    ensures ValidateBrackets([(0.0, 1.0, 5.0), (3.0, 2.0, 5.0)]).Err?
  {
    assert FirstBadBracket([(0.0, 1.0, 5.0), (3.0, 2.0, 5.0)], 0) == Some(1);
  }

  // ---------------------------------------------------------------------------
  // Room composition editor.

  /** The ten edited materials, in the editor's order; "other" is derived. */
  const EditedFields: seq<string> := ["soft", "paint", "wood", "metal", "concrete",
                                      "paper", "lino", "plastic", "glass", "human"]

  /** A room's composition record: the ten edited percentages, in
      `EditedFields` order, and "other". */
  class RoomComposition {
    var parts: seq<real>
    var other: real

    /** The class defaults: every material 0 and other 100. */
    constructor ()
      ensures parts == seq(|EditedFields|, _ => 0.0) && other == 100.0
    {
      parts := seq(|EditedFields|, _ => 0.0);
      other := 100.0;
    }
  }

  /** Adding one more entry at the end of a sum. */
  lemma {:induction false} SumSnoc(s: seq<real>, x: real)
    ensures Surfaces.Sum(s + [x]) == Surfaces.Sum(s) + x
  {
    if |s| == 0 {
      assert s + [x] == [x];
      assert Surfaces.Sum([x]) == x + Surfaces.Sum([]);
    } else {
      assert (s + [x])[1..] == s[1..] + [x];
      SumSnoc(s[1..], x);
    }
  }

  /** The remainder "other" shows: `max(0, 100 - total)`. */
  function Remainder(total: real): (o: real)
    ensures o >= 0.0
    ensures total <= 100.0 ==> o + total == 100.0
    ensures total >= 100.0 ==> o == 0.0
  {
    if 100.0 - total >= 0.0 then 100.0 - total else 0.0
  }

  /** `RoomCompositionEditor`: ten spin boxes, each in [0, 100], bound to one
      composition record. */
  class CompositionEditor {
    var spins: seq<real>
    const composition: RoomComposition

    predicate Valid()
      reads this, composition
    {
      |spins| == |EditedFields| && |composition.parts| == |EditedFields| &&
      forall i :: 0 <= i < |spins| ==> 0.0 <= spins[i] <= 100.0
    }

    /** The editor opened on `c`: each spin box shows the record's value. */
    constructor (c: RoomComposition)
      requires |c.parts| == |EditedFields| && forall i :: 0 <= i < |c.parts| ==> 0.0 <= c.parts[i] <= 100.0
      ensures Valid() && composition == c && spins == c.parts
    {
      composition := c;
      spins := c.parts;
    }

    /** A spin box changed: the user sets box `k` to `v` (the box clamps to its
        range), then `on_value_changed` runs. */
    method SetSpin(k: nat, v: real)
      requires Valid() && k < |spins|
      modifies this`spins, composition
      ensures Valid()
      ensures spins == old(spins)[k := if v < 0.0 then 0.0 else if v > 100.0 then 100.0 else v]
      ensures composition.parts == spins
      ensures composition.other == Remainder(Surfaces.Sum(spins))
    {
      spins := spins[k := if v < 0.0 then 0.0 else if v > 100.0 then 100.0 else v];
      OnValueChanged();
    }

    /** `on_value_changed`: copies every spin box into the record while adding
        them up, then sets other to the remainder of 100, never below 0. */
    method OnValueChanged()
      requires Valid()
      modifies composition
      ensures Valid()
      ensures composition.parts == spins
      ensures composition.other == Remainder(Surfaces.Sum(spins))
    {
      var total := 0.0;
      var k := 0;
      while k < |spins|
        invariant 0 <= k <= |spins| && |composition.parts| == |spins|
        invariant total == Surfaces.Sum(spins[..k])
        invariant composition.parts[..k] == spins[..k]
      {
        composition.parts := composition.parts[k := spins[k]];
        SumSnoc(spins[..k], spins[k]);
        assert spins[..k + 1] == spins[..k] + [spins[k]];
        total := total + spins[k];
        k := k + 1;
      }
      assert spins[..k] == spins && composition.parts[..k] == composition.parts;
      composition.other := Remainder(total);
    }
  }

  /** The composition the editor writes always adds up to at least 100, exactly
      100 while the ten materials leave room, and other is never negative. */
  lemma CompositionCompletes(spins: seq<real>)
    ensures Remainder(Surfaces.Sum(spins)) >= 0.0
    ensures Surfaces.Sum(spins) <= 100.0 ==> Surfaces.Sum(spins) + Remainder(Surfaces.Sum(spins)) == 100.0
    ensures Surfaces.Sum(spins) > 100.0 ==> Remainder(Surfaces.Sum(spins)) == 0.0
  {
  }

  // ---------------------------------------------------------------------------
  // Table editors.

  /** Python's ordering of `(time, value)` tuples: by time, then by value. */
  predicate PairLe(a: (real, real), b: (real, real))
  {
    a.0 < b.0 || (a.0 == b.0 && a.1 <= b.1)
  }

  predicate SortedPairs(s: seq<(real, real)>)
  {
    forall i, j :: 0 <= i < j < |s| ==> PairLe(s[i], s[j])
  }

  /** `x` placed before the first entry it does not exceed. */
  function Insert(x: (real, real), s: seq<(real, real)>): (r: seq<(real, real)>)
    ensures multiset(r) == multiset(s) + multiset{x} && |r| == |s| + 1
  {
    if |s| == 0 then [x]
    else if PairLe(x, s[0]) then [x] + s
    else
      assert s == [s[0]] + s[1..];
      [s[0]] + Insert(x, s[1..])
  }

  /** Inserting into a sorted list keeps it sorted. */
  lemma {:induction false} InsertSorted(x: (real, real), s: seq<(real, real)>)
    requires SortedPairs(s)
    ensures SortedPairs(Insert(x, s))
    ensures forall y :: y in Insert(x, s) ==> y == x || y in s
  {
    if |s| == 0 {
    } else if PairLe(x, s[0]) {
      assert forall j :: 0 <= j < |s| ==> PairLe(s[0], s[j]);
    } else {
      InsertSorted(x, s[1..]);
      var rest := Insert(x, s[1..]);
      forall k | 0 <= k < |rest|
        ensures PairLe(s[0], rest[k])
      {
        assert rest[k] in rest;
        if rest[k] != x {
          var j :| 0 <= j < |s[1..]| && s[1..][j] == rest[k];
          assert s[j + 1] == rest[k];
        }
      }
      assert Insert(x, s) == [s[0]] + rest;
    }
  }

  /** `list.sort()` on `(time, value)` pairs: a sorted permutation. */
  function SortPairs(s: seq<(real, real)>): (r: seq<(real, real)>)
    ensures SortedPairs(r) && multiset(r) == multiset(s) && |r| == |s|
  {
    if |s| == 0 then []
    else
      assert s == [s[0]] + s[1..];
      InsertSorted(s[0], SortPairs(s[1..]));
      Insert(s[0], SortPairs(s[1..]))
  }

  /** Sorted rows fail the ordering check exactly when two neighbours share a
      time: after sorting, a repeated time is the only ordering failure. */
  lemma SortedFailsOnlyOnRepeat(s: seq<(real, real)>)
    requires SortedPairs(s)
    ensures !StrictlyIncreasing(s) <==> exists i :: 0 <= i < |s| - 1 && s[i].0 == s[i + 1].0
  {
    if !StrictlyIncreasing(s) {
      var i :| 0 <= i < |s| - 1 && s[i].0 >= s[i + 1].0;
      assert PairLe(s[i], s[i + 1]);
      assert s[i].0 == s[i + 1].0;
    }
    if exists i :: 0 <= i < |s| - 1 && s[i].0 == s[i + 1].0 {
      var i :| 0 <= i < |s| - 1 && s[i].0 == s[i + 1].0;
      assert !(s[i].0 < s[i + 1].0);
    }
  }

  /** The time editor's verdict on non-empty rows: after sorting, validation
      fails exactly when two rows share a time. */
  lemma SortedRowsRejectedOnlyForRepeat(values: seq<(real, real)>)
    requires |values| > 0
    ensures ValidateTimeValues(SortPairs(values)).Err? <==>
      exists i :: 0 <= i < |values| - 1 && SortPairs(values)[i].0 == SortPairs(values)[i + 1].0
  {
    SortedFailsOnlyOnRepeat(SortPairs(values));
  }

  /** A table cell after `float(item.text())`: None where the text is not a
      number (or the cell is missing) and Python raises. */
  type Cell = Option<real>

  /** `TimeValueEditor`: a collapsible two-column table of (time, value) rows. */
  class TimeValueEditor {
    var expanded: bool
    var rows: seq<(Cell, Cell)>

    constructor ()
      ensures !expanded && rows == []
    {
      expanded := false;
      rows := [];
    }

    /** `add_row`: a new row reading ("0.0", "0.0") at the end. */
    method AddRow()
      modifies this`rows
      ensures rows == old(rows) + [(Some(0.0), Some(0.0))]
    {
      rows := rows + [(Some(0.0), Some(0.0))];
    }

    /** `remove_row`: the current row goes; with no current row (-1) nothing
        changes. */
    method RemoveRow(current: int)
      requires -1 <= current < |rows|
      modifies this`rows
      ensures current == -1 ==> rows == old(rows)
      ensures current >= 0 ==> rows == old(rows)[..current] + old(rows)[current + 1..]
    {
      if current >= 0 {
        rows := rows[..current] + rows[current + 1..];
      }
    }

    /** `get_value`: None while collapsed; otherwise the rows are read into
        numbers, sorted and validated, and any failure gives None. */
    method GetValue() returns (v: Option<seq<(real, real)>>)
      ensures !expanded ==> v.None?
      ensures expanded && (exists i :: 0 <= i < |rows| && (rows[i].0.None? || rows[i].1.None?)) ==> v.None?
      ensures v.Some? <==> expanded && RowsRead(rows).Some? && ValidateTimeValues(SortPairs(RowsRead(rows).value)).Ok?
      ensures v.Some? ==> v.value == SortPairs(RowsRead(rows).value)
    {
      if !expanded {
        return None;
      }
      var values: seq<(real, real)> := [];
      var k := 0;
      while k < |rows|
        invariant 0 <= k <= |rows|
        invariant |values| == k
        invariant forall i :: 0 <= i < k ==> rows[i].0.Some? && rows[i].1.Some? && values[i] == (rows[i].0.value, rows[i].1.value)
      {
        if rows[k].0.None? || rows[k].1.None? {
          assert RowsRead(rows).None?;
          return None;
        }
        values := values + [(rows[k].0.value, rows[k].1.value)];
        k := k + 1;
      }
      assert values == RowsRead(rows).value;
      var sorted := SortPairs(values);
      var r := ValidateTimeValues(sorted);
      if r.Err? {
        return None;
      }
      return Some(r.value);
    }
  }

  /** Every row read as a pair of numbers, or None when a cell is not a number. */
  function RowsRead(rows: seq<(Cell, Cell)>): (r: Option<seq<(real, real)>>)
    ensures r.Some? <==> forall i :: 0 <= i < |rows| ==> rows[i].0.Some? && rows[i].1.Some?
    ensures r.Some? ==> |r.value| == |rows| && forall i :: 0 <= i < |rows| ==> r.value[i] == (rows[i].0.value, rows[i].1.value)
  {
    if |rows| == 0 then Some([])
    else if rows[0].0.None? || rows[0].1.None? then None
    else match RowsRead(rows[1..])
      case None => None
      case Some(rest) => Some([(rows[0].0.value, rows[0].1.value)] + rest)
  }

  /** `BracketedValueEditor`: a collapsible three-column table of
      (start, end, value) rows. */
  class BracketedValueEditor {
    var expanded: bool
    var rows: seq<(Cell, Cell, Cell)>

    constructor ()
      ensures !expanded && rows == []
    {
      expanded := false;
      rows := [];
    }

    /** `add_row`: a new row reading ("0.0", "1.0", "10.0") at the end. */
    method AddRow()
      modifies this`rows
      ensures rows == old(rows) + [(Some(0.0), Some(1.0), Some(10.0))]
    {
      rows := rows + [(Some(0.0), Some(1.0), Some(10.0))];
    }

    /** `remove_row`: the current row goes; with no current row (-1) nothing
        changes. */
    method RemoveRow(current: int)
      requires -1 <= current < |rows|
      modifies this`rows
      ensures current == -1 ==> rows == old(rows)
      ensures current >= 0 ==> rows == old(rows)[..current] + old(rows)[current + 1..]
    {
      if current >= 0 {
        rows := rows[..current] + rows[current + 1..];
      }
    }

    /** `get_value`: None while collapsed; otherwise the rows are read in the
        order entered, without sorting, and validated; any failure gives None. */
    method GetValue() returns (v: Option<seq<(real, real, real)>>)
      ensures !expanded ==> v.None?
      ensures v.Some? <==> expanded && TriplesRead(rows).Some? && ValidateBrackets(TriplesRead(rows).value).Ok?
      ensures v.Some? ==> v.value == TriplesRead(rows).value
      ensures v == BracketValue(expanded, rows)
    {
      if !expanded {
        return None;
      }
      var values: seq<(real, real, real)> := [];
      var k := 0;
      while k < |rows|
        invariant 0 <= k <= |rows|
        invariant |values| == k
        invariant forall i :: 0 <= i < k ==> rows[i].0.Some? && rows[i].1.Some? && rows[i].2.Some? &&
                                             values[i] == (rows[i].0.value, rows[i].1.value, rows[i].2.value)
      {
        if rows[k].0.None? || rows[k].1.None? || rows[k].2.None? {
          return None;
        }
        values := values + [(rows[k].0.value, rows[k].1.value, rows[k].2.value)];
        k := k + 1;
      }
      var r := ValidateBrackets(values);
      if r.Err? {
        return None;
      }
      return Some(r.value);
    }

    /** The refill in `species_changed`: the table is emptied, then each
        triple adds a row whose three cells show its numbers (`str` of a
        float reads back as the same float). */
    method Load(values: seq<(real, real, real)>)
      modifies this`rows
      ensures rows == TableOf(values)
    {
      rows := [];
      for k := 0 to |values|
        invariant rows == TableOf(values[..k])
      {
        AddRow();
        rows := rows[k := (Some(values[k].0), Some(values[k].1), Some(values[k].2))];
        assert values[..k + 1] == values[..k] + [values[k]];
      }
      assert values[..|values|] == values;
    }
  }

  /** Every row read as a triple of numbers, or None when a cell is not a number. */
  function TriplesRead(rows: seq<(Cell, Cell, Cell)>): (r: Option<seq<(real, real, real)>>)
    ensures r.Some? <==> forall i :: 0 <= i < |rows| ==> rows[i].0.Some? && rows[i].1.Some? && rows[i].2.Some?
    ensures r.Some? ==> (|r.value| == |rows| &&
      forall i :: 0 <= i < |rows| ==> r.value[i] == (rows[i].0.value, rows[i].1.value, rows[i].2.value))
  {
    if |rows| == 0 then Some([])
    else if rows[0].0.None? || rows[0].1.None? || rows[0].2.None? then None
    else match TriplesRead(rows[1..])
      case None => None
      case Some(rest) => Some([(rows[0].0.value, rows[0].1.value, rows[0].2.value)] + rest)
  }

  /** `get_value` of a bracketed editor in the given state. */
  function BracketValue(expanded: bool, rows: seq<(Cell, Cell, Cell)>): Option<seq<(real, real, real)>>
  {
    if expanded && TriplesRead(rows).Some? && ValidateBrackets(TriplesRead(rows).value).Ok?
    then Some(TriplesRead(rows).value) else None
  }

  /** The rows that show `values`, one triple per row. */
  function TableOf(values: seq<(real, real, real)>): (rows: seq<(Cell, Cell, Cell)>)
    ensures |rows| == |values|
    ensures forall i :: 0 <= i < |values| ==> rows[i] == (Some(values[i].0), Some(values[i].1), Some(values[i].2))
  {
    seq(|values|, i requires 0 <= i < |values| => (Some(values[i].0), Some(values[i].1), Some(values[i].2)))
  }

  /** A table filled from `values` reads back as `values`. */
  lemma TableReadsBack(values: seq<(real, real, real)>)
    ensures TriplesRead(TableOf(values)) == Some(values)
  {
    var r := TriplesRead(TableOf(values));
    assert r.Some?;
    assert r.value == values;
  }

  // ---------------------------------------------------------------------------
  // Emissions editor.

  /** The emission a newly added species starts with. */
  const DefaultEmission: seq<(real, real, real)> := [(0.0, 1.0, 0.0)]

  /** The label shown while no species is being edited. */
  const Prompt: string := "Select a species to edit emissions"

  /** What the emissions editor's handlers read and write: the dictionary,
      the species list and its current row (-1: no current item), and the
      bracketed editor's expanded (checked) state, rows, enabled state and
      the label above it. */
  datatype Panel = Panel(emissions: map<string, seq<(real, real, real)>>, species: seq<string>, current: int,
                         expanded: bool, rows: seq<(Cell, Cell, Cell)>, enabled: bool, currentLabel: string)

  /** The list shows every key of the dictionary exactly once, and the current
      row, if any, is one of its rows. */
  predicate PanelValid(p: Panel)
  {
    p.emissions.Keys == (set s | s in p.species) &&
    (forall i, j :: 0 <= i < j < |p.species| ==> p.species[i] != p.species[j]) &&
    -1 <= p.current < |p.species|
  }

  /** `bracketed_changed(checked)`: when checked with a current species, a
      value read from the table replaces that species' emission. */
  function OnBracketedChanged(p: Panel, checked: bool): (r: Panel)
    ensures r.species == p.species && r.current == p.current && r.expanded == p.expanded && r.rows == p.rows
    ensures r.enabled == p.enabled && r.currentLabel == p.currentLabel
    ensures PanelValid(p) ==> PanelValid(r)
    ensures forall k :: k in p.emissions && (!(0 <= p.current < |p.species|) || k != p.species[p.current]) ==>
      k in r.emissions && r.emissions[k] == p.emissions[k]
  {
    if !checked || !(0 <= p.current < |p.species|) then p
    else match BracketValue(p.expanded, p.rows)
      case None => p
      case Some(v) => p.(emissions := p.emissions[p.species[p.current] := v])
  }

  /** `toggle_button.setChecked(checked)` (or a click on it): `toggled`
      fires, expanding or collapsing the editor and running
      `bracketed_changed`, only when the state changes. */
  function OnSetChecked(p: Panel, checked: bool): (r: Panel)
    ensures r.expanded == checked && r.species == p.species && r.current == p.current && r.rows == p.rows
    ensures r.enabled == p.enabled && r.currentLabel == p.currentLabel
    ensures PanelValid(p) ==> PanelValid(r)
    ensures p.expanded || !checked ==> r.emissions == p.emissions
  {
    if p.expanded == checked then p else OnBracketedChanged(p.(expanded := checked), checked)
  }

  /** `species_changed` for the current item, as written: the editor is
      checked (which, when it was collapsed, runs `bracketed_changed` on the
      table as it stands) before the table is refilled from the emission read
      at the start. */
  function OnSpeciesChanged(p: Panel): (r: Panel)
    ensures r.species == p.species && r.current == p.current
    ensures PanelValid(p) ==> PanelValid(r)
    ensures 0 <= p.current < |p.species| && p.species[p.current] in p.emissions ==>
      r.expanded && r.enabled && r.rows == TableOf(p.emissions[p.species[p.current]]) &&
      r.currentLabel == "Editing Emissions for: " + p.species[p.current]
    ensures !(0 <= p.current < |p.species|) ==> !r.expanded && !r.enabled && r.currentLabel == Prompt && r.emissions == p.emissions
  {
    if !(0 <= p.current < |p.species|) then OnSetChecked(p.(enabled := false), false).(currentLabel := Prompt)
    else
      var s := p.species[p.current];
      var q := p.(currentLabel := "Editing Emissions for: " + s);
      if s in p.emissions then OnSetChecked(q, true).(rows := TableOf(p.emissions[s]), enabled := true)
      else OnSetChecked(q.(enabled := false), false)
  }

  /** Selecting a species changes no emission but possibly its own. */
  lemma SelectWritesOnlyCurrent(p: Panel, k: string)
    requires 0 <= p.current < |p.species| && k in p.emissions && k != p.species[p.current]
    ensures k in OnSpeciesChanged(p).emissions && OnSpeciesChanged(p).emissions[k] == p.emissions[k]
  {
    var q := p.(currentLabel := "Editing Emissions for: " + p.species[p.current]);
    assert q.emissions == p.emissions && q.current == p.current && q.species == p.species;
  }

  /** With the editor already expanded, selecting a species changes no emission. */
  lemma SelectExpandedKeepsEmissions(p: Panel)
    requires p.expanded && 0 <= p.current < |p.species| && p.species[p.current] in p.emissions
    ensures OnSpeciesChanged(p).emissions == p.emissions
  {
  }

  /** `setCurrentRow(row)`: `currentItemChanged`, and so `species_changed`,
      fires only when the row changes. */
  function OnSetCurrentRow(p: Panel, row: int): (r: Panel)
    ensures r.species == p.species && r.current == row
    ensures PanelValid(p) && -1 <= row < |p.species| ==> PanelValid(r)
  {
    if row == p.current then p else OnSpeciesChanged(p.(current := row))
  }

  /** `add_species`: a cancelled, empty or existing name changes nothing; a
      new name gets the default emission, joins the end of the list and is
      made current. */
  function OnAddSpecies(p: Panel, text: string, ok: bool): (r: Panel)
    ensures PanelValid(p) ==> PanelValid(r)
    ensures !ok || text == "" || text in p.emissions ==> r == p
    ensures ok && text != "" && text !in p.emissions && PanelValid(p) ==>
      r.species == p.species + [text] && r.current == |p.species| && r.expanded &&
      r.rows == TableOf(DefaultEmission) && text in r.emissions &&
      forall k :: k in p.emissions ==> k in r.emissions && r.emissions[k] == p.emissions[k]
  {
    if !ok || text == "" || text in p.emissions then p
    else
      var q := p.(emissions := p.emissions[text := DefaultEmission], species := p.species + [text]);
      OnSetCurrentRow(q, |p.species|)
  }

  /** A new species keeps the default emission when the editor was expanded,
      or when the table it showed does not read as a valid value. */
  lemma AddedSpeciesDefault(p: Panel, text: string)
    requires PanelValid(p) && text != "" && text !in p.emissions
    requires p.expanded || BracketValue(true, p.rows).None?
    ensures OnAddSpecies(p, text, true).emissions == p.emissions[text := DefaultEmission]
  {
  }

  /** The row the list view makes current when the current row `c` is taken
      out of a list with `remaining` rows left: the row below, which moves up
      into `c`, else the row above, else none. */
  function RowAfterTake(c: nat, remaining: nat): (row: int)
    ensures c <= remaining ==> -1 <= row < remaining
    ensures row == -1 <==> c == 0 && remaining == 0
  {
    if c < remaining then c else c - 1
  }

  /** Which species becomes current when row `c` is taken: the one below it,
      or the one above when `c` was the last row, or none when it was the
      only row. */
  lemma TakeSelectsNeighbour(list: seq<string>, c: nat, rest: seq<string>)
    requires c < |list| && rest == list[..c] + list[c + 1..]
    ensures c + 1 < |list| ==> rest[RowAfterTake(c, |rest|)] == list[c + 1]
    ensures c + 1 == |list| && c > 0 ==> rest[RowAfterTake(c, |rest|)] == list[c - 1]
    ensures |list| == 1 ==> RowAfterTake(c, |rest|) == -1
  {
    if c + 1 < |list| {
      assert rest[c] == list[c + 1];
    } else if c > 0 {
      assert rest[c - 1] == list[c - 1];
    }
  }

  /** `remove_species`: with a current item and the removal confirmed, the
      species leaves the dictionary and its row the list; taking the row
      makes a neighbour current (running `species_changed` for it), and then
      the editor is disabled and collapsed. */
  function OnRemoveSpecies(p: Panel, confirmed: bool): (r: Panel)
    ensures PanelValid(p) ==> PanelValid(r)
    ensures !(0 <= p.current < |p.species|) || !confirmed ==> r == p
    ensures 0 <= p.current < |p.species| && confirmed ==>
      r.species == p.species[..p.current] + p.species[p.current + 1..] &&
      p.species[p.current] !in r.emissions && !r.expanded && !r.enabled && r.currentLabel == Prompt &&
      r.current == RowAfterTake(p.current, |r.species|)
  {
    if !(0 <= p.current < |p.species|) || !confirmed then p
    else
      var s := p.species[p.current];
      var rest := p.species[..p.current] + p.species[p.current + 1..];
      RemovedRow(p.species, p.current, rest);
      var q := OnSpeciesChanged(p.(emissions := p.emissions - {s}, species := rest, current := RowAfterTake(p.current, |rest|)));
      OnSetChecked(q.(enabled := false), false).(currentLabel := Prompt)
  }

  /** Taking row `c` out of a list without repeats leaves exactly the other
      entries, still without repeats. */
  lemma RemovedRow(list: seq<string>, c: nat, rest: seq<string>)
    requires c < |list| && rest == list[..c] + list[c + 1..]
    ensures (forall i, j :: 0 <= i < j < |list| ==> list[i] != list[j]) ==>
      (set x | x in rest) == (set x | x in list) - {list[c]} &&
      forall i, j :: 0 <= i < j < |rest| ==> rest[i] != rest[j]
  {
    if forall i, j :: 0 <= i < j < |list| ==> list[i] != list[j] {
      forall i | 0 <= i < |rest|
        ensures rest[i] == list[if i < c then i else i + 1]
      {
      }
      forall x | x in rest
        ensures x in list && x != list[c]
      {
        var i :| 0 <= i < |rest| && rest[i] == x;
      }
      forall x | x in list && x != list[c]
        ensures x in rest
      {
        var i :| 0 <= i < |list| && list[i] == x;
        assert rest[if i < c then i else i - 1] == x;
      }
    }
  }

  /** Removing the current species while the editor is expanded takes out
      that species' emission and changes no other. */
  lemma RemoveExpandedDropsOne(p: Panel)
    requires PanelValid(p) && p.expanded && 0 <= p.current < |p.species|
    ensures OnRemoveSpecies(p, true).emissions == p.emissions - {p.species[p.current]}
  {
    var rest := p.species[..p.current] + p.species[p.current + 1..];
    RemovedRow(p.species, p.current, rest);
    var left := p.(emissions := p.emissions - {p.species[p.current]}, species := rest, current := RowAfterTake(p.current, |rest|));
    assert PanelValid(left);
    var q := OnSpeciesChanged(left);
    assert q.emissions == left.emissions by {
      if 0 <= left.current {
        assert left.species[left.current] in left.emissions;
        SelectExpandedKeepsEmissions(left);
      }
    }
  }

  /** What adding a new species leaves for its removal: it is the current,
      last row, the editor is expanded, and without it the dictionary and
      the list are as before. */
  lemma AddedFacts(p: Panel, text: string)
    requires PanelValid(p) && text != "" && text !in p.emissions
    ensures var a := OnAddSpecies(p, text, true);
      PanelValid(a) && a.expanded && a.current == |p.species| < |a.species| && a.species[a.current] == text &&
      a.species[..a.current] + a.species[a.current + 1..] == p.species &&
      a.emissions - {text} == p.emissions
  {
    var a := OnAddSpecies(p, text, true);
    assert a.species[..a.current] + a.species[a.current + 1..] == p.species;
    AddedKeys(p, text, a);
  }

  /** The keys after adding a new species: the old ones and the new one,
      with the old emissions kept. */
  lemma AddedKeys(p: Panel, text: string, a: Panel)
    requires PanelValid(p) && PanelValid(a) && text !in p.emissions && a.species == p.species + [text]
    requires forall k :: k in p.emissions ==> k in a.emissions && a.emissions[k] == p.emissions[k]
    ensures a.emissions - {text} == p.emissions
  {
    var d := a.emissions - {text};
    forall k | k in d
      ensures k in p.emissions
    {
      assert k in a.species;
    }
  }

  /** Adding a new species and then removing it gives back the dictionary and
      the list the editor started from. */
  lemma AddThenRemove(p: Panel, text: string)
    requires PanelValid(p) && text != "" && text !in p.emissions
    ensures OnRemoveSpecies(OnAddSpecies(p, text, true), true).emissions == p.emissions
    ensures OnRemoveSpecies(OnAddSpecies(p, text, true), true).species == p.species
  {
    AddedFacts(p, text);
    RemoveExpandedDropsOne(OnAddSpecies(p, text, true));
  }

  /** As written, selecting another species while the editor is collapsed
      and its table reads as a valid value gives the selected species the
      table's value in place of its own. */
  lemma CollapsedSelectOverwrites(p: Panel, row: int)
    requires 0 <= row < |p.species| && row != p.current && p.species[row] in p.emissions
    requires !p.expanded && BracketValue(true, p.rows).Some?
    ensures OnSetCurrentRow(p, row).emissions == p.emissions[p.species[row] := BracketValue(true, p.rows).value]
    ensures OnSetCurrentRow(p, row).rows == TableOf(p.emissions[p.species[row]])
  {
  }

  /** Editing A, removing it, then clicking C gives C the emission of B, the
      row made current by the removal. */
  lemma RemoveThenSelectLosesEmission()
    ensures var b, c := [(0.0, 1.0, 5.0)], [(0.0, 2.0, 7.0)];
      var p := Panel(map["A" := [(0.0, 1.0, 3.0)], "B" := b, "C" := c], ["A", "B", "C"], 0,
                     true, TableOf([(0.0, 1.0, 3.0)]), true, "Editing Emissions for: A");
      var r := OnSetCurrentRow(OnRemoveSpecies(p, true), 1);
      r.species == ["B", "C"] && "C" in r.emissions && r.emissions["C"] == b != c
  {
    var b, c := [(0.0, 1.0, 5.0)], [(0.0, 2.0, 7.0)];
    var p := Panel(map["A" := [(0.0, 1.0, 3.0)], "B" := b, "C" := c], ["A", "B", "C"], 0,
                   true, TableOf([(0.0, 1.0, 3.0)]), true, "Editing Emissions for: A");
    var rest := p.species[..0] + p.species[1..];
    assert rest == ["B", "C"];
    var left := p.(emissions := p.emissions - {"A"}, species := rest, current := RowAfterTake(0, 2));
    assert left.emissions == map["B" := b, "C" := c];
    assert left.current == 0 && left.species[0] == "B";
    var q := OnSpeciesChanged(left);
    SelectExpandedKeepsEmissions(left);
    assert q.emissions == left.emissions && q.rows == TableOf(b);
    var removed := OnSetChecked(q.(enabled := false), false).(currentLabel := Prompt);
    assert OnRemoveSpecies(p, true) == removed;
    assert removed.emissions == left.emissions && removed.rows == TableOf(b) && !removed.expanded;
    TableReadsBack(b);
    assert FirstBadBracket(b, 0) == None;
    assert BracketValue(true, removed.rows) == Some(b);
    CollapsedSelectOverwrites(removed, 1);
  }

  /** Removing B, the middle of A, B and C, while the editor is collapsed
      makes C current, and `species_changed(C)` writes the table still shown
      (B's emission) into C; A keeps its own. */
  lemma RemoveMiddleWritesBelow()
    ensures var a, b, c := [(0.0, 1.0, 3.0)], [(0.0, 1.0, 5.0)], [(0.0, 2.0, 7.0)];
      var p := Panel(map["A" := a, "B" := b, "C" := c], ["A", "B", "C"], 1,
                     false, TableOf(b), true, "Editing Emissions for: B");
      var r := OnRemoveSpecies(p, true);
      r.species == ["A", "C"] && r.current == 1 && "C" in r.emissions && r.emissions["C"] == b != c &&
      "A" in r.emissions && r.emissions["A"] == a
  {
    var a, b, c := [(0.0, 1.0, 3.0)], [(0.0, 1.0, 5.0)], [(0.0, 2.0, 7.0)];
    var p := Panel(map["A" := a, "B" := b, "C" := c], ["A", "B", "C"], 1,
                   false, TableOf(b), true, "Editing Emissions for: B");
    var rest := p.species[..1] + p.species[2..];
    assert rest == ["A", "C"];
    var left := p.(emissions := p.emissions - {"B"}, species := rest, current := RowAfterTake(1, 2));
    assert left.emissions == map["A" := a, "C" := c];
    assert left.current == 1 && left.species[1] == "C";
    TableReadsBack(b);
    assert FirstBadBracket(b, 0) == None;
    assert BracketValue(true, left.rows) == Some(b);
    var q := OnSpeciesChanged(left);
    CollapsedSelectWrites(left);
    assert q.emissions == left.emissions["C" := b];
    var removed := OnSetChecked(q.(enabled := false), false).(currentLabel := Prompt);
    assert OnRemoveSpecies(p, true) == removed;
  }

  /** `species_changed` with the editor collapsed and a table that reads as
      a value: the current species takes that value. */
  lemma CollapsedSelectWrites(p: Panel)
    requires 0 <= p.current < |p.species| && p.species[p.current] in p.emissions
    requires !p.expanded && BracketValue(true, p.rows).Some?
    ensures OnSpeciesChanged(p).emissions == p.emissions[p.species[p.current] := BracketValue(true, p.rows).value]
  {
  }

  /** The evidently intended `species_changed`: the table is refilled from
      the species' emission before the editor is checked, so a
      `bracketed_changed` that fires reads back that same emission. */
  function OnSpeciesChangedIntended(p: Panel): (r: Panel)
    ensures r.species == p.species && r.current == p.current
    ensures 0 <= p.current < |p.species| && p.species[p.current] in p.emissions ==>
      r.expanded && r.enabled && r.rows == TableOf(p.emissions[p.species[p.current]])
  {
    if !(0 <= p.current < |p.species|) then OnSetChecked(p.(enabled := false), false).(currentLabel := Prompt)
    else
      var s := p.species[p.current];
      var q := p.(currentLabel := "Editing Emissions for: " + s);
      if s in p.emissions then OnSetChecked(q.(rows := TableOf(p.emissions[s])), true).(enabled := true)
      else OnSetChecked(q.(enabled := false), false)
  }

  /** Selecting a species with the intended handler changes no emission. */
  lemma IntendedSelectKeepsEmissions(p: Panel)
    ensures OnSpeciesChangedIntended(p).emissions == p.emissions
  {
    if 0 <= p.current < |p.species| && p.species[p.current] in p.emissions {
      TableReadsBack(p.emissions[p.species[p.current]]);
    }
  }

  /** `EmissionsEditor`: the species dictionary, the list showing its keys
      with its current row, and the bracketed editor for the current species. */
  class EmissionsEditor {
    var emissions: map<string, seq<(real, real, real)>>
    var speciesList: seq<string>
    var current: int
    var enabled: bool
    var currentLabel: string
    const editor: BracketedValueEditor

    /** The state the handlers work on. */
    function State(): Panel
      reads this, editor
    {
      Panel(emissions, speciesList, current, editor.expanded, editor.rows, enabled, currentLabel)
    }

    /** The list shows every key exactly once. */
    predicate Valid()
      reads this, editor
    {
      PanelValid(State())
    }

    /** The editor opened on a dictionary lists its keys in dictionary order,
        with no current row and the bracketed editor collapsed and disabled. */
    constructor (emissions: map<string, seq<(real, real, real)>>, keyOrder: seq<string>)
      requires forall s :: s in emissions <==> s in keyOrder
      requires forall i, j :: 0 <= i < j < |keyOrder| ==> keyOrder[i] != keyOrder[j]
      ensures Valid() && fresh(editor)
      ensures State() == Panel(emissions, keyOrder, -1, false, [], false, Prompt)
    {
      this.emissions := emissions;
      speciesList := keyOrder;
      current := -1;
      enabled := false;
      currentLabel := Prompt;
      editor := new BracketedValueEditor();
    }

    /** `bracketed_changed`. */
    method BracketedChanged(checked: bool)
      modifies this
      ensures State() == OnBracketedChanged(old(State()), checked)
    {
      if !checked {
        return;
      }
      if !(0 <= current < |speciesList|) {
        return;
      }
      var species := speciesList[current];
      var val := editor.GetValue();
      if val.Some? {
        emissions := emissions[species := val.value];
      }
    }

    /** `bracketed_editor.toggle_button.setChecked`, or a click on the toggle. */
    method SetChecked(checked: bool)
      modifies this, editor`expanded
      ensures State() == OnSetChecked(old(State()), checked)
    {
      if editor.expanded != checked {
        editor.expanded := checked;
        BracketedChanged(checked);
      }
    }

    /** `species_changed` for the current item. */
    method SpeciesChanged()
      modifies this, editor
      ensures State() == OnSpeciesChanged(old(State()))
    {
      if !(0 <= current < |speciesList|) {
        enabled := false;
        SetChecked(false);
        currentLabel := Prompt;
        return;
      }
      var species := speciesList[current];
      currentLabel := "Editing Emissions for: " + species;
      if species in emissions {
        var tbv := emissions[species];
        SetChecked(true);
        editor.Load(tbv);
        enabled := true;
      } else {
        enabled := false;
        SetChecked(false);
      }
    }

    /** `species_list.setCurrentRow(row)`, or a click on a row. */
    method SetCurrentRow(row: int)
      requires -1 <= row < |speciesList|
      modifies this, editor
      ensures State() == OnSetCurrentRow(old(State()), row)
    {
      if row != current {
        current := row;
        SpeciesChanged();
      }
    }

    /** `add_species`, given the dialog's text and whether it was accepted. */
    method AddSpecies(text: string, ok: bool)
      modifies this, editor
      ensures State() == OnAddSpecies(old(State()), text, ok)
      ensures old(Valid()) ==> Valid()
    {
      if ok && text != "" {
        if text in emissions {
          return;
        }
        emissions := emissions[text := DefaultEmission];
        speciesList := speciesList + [text];
        SetCurrentRow(|speciesList| - 1);
      }
    }

    /** `remove_species`, given whether the removal was confirmed. */
    method RemoveSpecies(confirmed: bool)
      modifies this, editor
      ensures State() == OnRemoveSpecies(old(State()), confirmed)
      ensures old(Valid()) ==> Valid()
    {
      if 0 <= current < |speciesList| && confirmed {
        var species := speciesList[current];
        emissions := emissions - {species};
        var rest := speciesList[..current] + speciesList[current + 1..];
        current := RowAfterTake(current, |rest|);
        speciesList := rest;
        SpeciesChanged();
        enabled := false;
        SetChecked(false);
        currentLabel := Prompt;
      }
    }
  }
}
