/** Building apertures from the rows of an already-read building table, and
    keeping one aperture of each pair of mirrored inter-room rows. */
module ApertureFactory {
  import opened Wrappers
  import opened PyOps
  import opened Building

  /** One row of the table: the origin and destination room numbers, the
      opening area and the outside side, absent when the cell is empty. */
  datatype Row = Row(rorig: int, rdest: int, area: real, oside: Option<string>)

  /** `Side[name]`: the member of that name; None where Python raises KeyError. */
  function SideNamed(name: string): (r: Option<Side>)
    ensures r.Some? <==> name in {"Unknown", "Front", "Back", "Left", "Right", "Upward", "Downward"}
  {
    if name == "Unknown" then Some(Unknown)
    else if name == "Front" then Some(Front)
    else if name == "Back" then Some(Back)
    else if name == "Left" then Some(Left)
    else if name == "Right" then Some(Right)
    else if name == "Upward" then Some(Upward)
    else if name == "Downward" then Some(Downward)
    else None
  }

  /** The aperture row `i` describes. With a side named, the destination is
      the room numbered `rdest` when there is one and otherwise the outside on
      that side; without a side, the side is Unknown and `rdest` must be a
      room. A missing room or side name raises KeyError. */
  function RowAperture(row: Row, i: nat, rooms: map<int, nat>): (r: Result<Aperture>)
    ensures r.Ok? <==> (row.rorig in rooms &&
      if row.oside.Some? then SideNamed(row.oside.value).Some? else row.rdest in rooms)
    ensures r.Ok? ==> r.value.id == i && r.value.origin == rooms[row.rorig] && r.value.area == row.area
    ensures r.Ok? ==> (r.value.destination.Outside? <==> row.oside.Some? && row.rdest !in rooms)
    ensures r.Ok? && !r.value.destination.Outside? ==> r.value.destination == Room(rooms[row.rdest])
    ensures r.Ok? && r.value.destination.Outside? ==> r.value.destination.side == r.value.sideOfRoom1
    ensures r.Ok? ==> (if row.oside.Some? then Some(r.value.sideOfRoom1) == SideNamed(row.oside.value)
                       else r.value.sideOfRoom1 == Unknown)
  {
    if row.rorig !in rooms then Err("KeyError")
    else
      match row.oside
      case Some(name) =>
        (match SideNamed(name)
         case None => Err("KeyError")
         case Some(side) =>
           var destination := if row.rdest in rooms then Room(rooms[row.rdest]) else Outside(side);
           Ok(Aperture(i, rooms[row.rorig], destination, row.area, side)))
      case None =>
        if row.rdest !in rooms then Err("KeyError")
        else Ok(Aperture(i, rooms[row.rorig], Room(rooms[row.rdest]), row.area, Unknown))
  }

  /** The apertures of the first `n` rows, or the first row's error. */
  function AperturesOf(rows: seq<Row>, rooms: map<int, nat>, n: nat): Result<seq<Aperture>>
    requires n <= |rows|
  {
    if n == 0 then Ok([])
    else
      var before :- AperturesOf(rows, rooms, n - 1);
      var here :- RowAperture(rows[n - 1], n - 1, rooms);
      Ok(before + [here])
  }

  /** Building succeeds exactly when every row does, giving one aperture per
      row, in row order, numbered by row. */
  lemma {:induction false} AperturesOfRows(rows: seq<Row>, rooms: map<int, nat>, n: nat)
    requires n <= |rows|
    ensures AperturesOf(rows, rooms, n).Ok? <==> forall i :: 0 <= i < n ==> RowAperture(rows[i], i, rooms).Ok?
    ensures AperturesOf(rows, rooms, n).Ok? ==> (|AperturesOf(rows, rooms, n).value| == n &&
      forall i :: 0 <= i < n ==> AperturesOf(rows, rooms, n).value[i] == RowAperture(rows[i], i, rooms).value)
  {
    if n > 0 {
      AperturesOfRows(rows, rooms, n - 1);
    }
  }

  /** Once a row fails, every longer prefix fails the same way. */
  lemma {:induction false} RowErrorPersists(rows: seq<Row>, rooms: map<int, nat>, m: nat, n: nat)
    requires m <= n <= |rows|
    ensures AperturesOf(rows, rooms, m).Err? ==> AperturesOf(rows, rooms, n) == AperturesOf(rows, rooms, m)
  {
    if m < n {
      RowErrorPersists(rows, rooms, m, n - 1);
    }
  }

  /** `build_apertures`: one aperture per row. */
  method BuildApertures(rows: seq<Row>, rooms: map<int, nat>) returns (r: Result<seq<Aperture>>)
    ensures r == AperturesOf(rows, rooms, |rows|)
  {
    var result: seq<Aperture> := [];
    for i := 0 to |rows|
      invariant AperturesOf(rows, rooms, i) == Ok(result)
    {
      var aperture := RowAperture(rows[i], i, rooms);
      if aperture.Err? {
        RowErrorPersists(rows, rooms, i + 1, |rows|);
        return Err(aperture.msg);
      }
      result := result + [aperture.value];
    }
    return Ok(result);
  }

  /** `x` runs the opposite way to `a`: from `a`'s destination to its origin. */
  predicate Mirrors(x: Aperture, a: Aperture)
  {
    x.destination == Room(a.origin) && Room(x.origin) == a.destination
  }

  /** The apertures of `s` mirroring `a`, in order. */
  function MirrorsOf(s: seq<Aperture>, a: Aperture): (r: seq<Aperture>)
    ensures |r| <= |s|
    ensures forall x :: x in r <==> x in s && Mirrors(x, a)
  {
    if |s| == 0 then []
    else (if Mirrors(s[0], a) then [s[0]] else []) + MirrorsOf(s[1..], a)
  }

  /** The number of outdoor apertures in `s`. */
  function Outdoors(s: seq<Aperture>): (n: nat)
    ensures n <= |s|
  {
    if |s| == 0 then 0 else (if IsOutdoor(s[0]) then 1 else 0) + Outdoors(s[1..])
  }

  lemma {:induction false} OutdoorsAppend(s: seq<Aperture>, t: seq<Aperture>)
    ensures Outdoors(s + t) == Outdoors(s) + Outdoors(t)
  {
    if |s| > 0 {
      assert (s + t)[1..] == s[1..] + t;
      OutdoorsAppend(s[1..], t);
    } else {
      assert s + t == t;
    }
  }

  /** Removing an indoor aperture leaves the outdoor count unchanged. */
  lemma RemoveIndoorKeepsOutdoors(s: seq<Aperture>, x: Aperture)
    requires RemoveFirst(s, x).Ok? && !IsOutdoor(x)
    ensures Outdoors(RemoveFirst(s, x).value) == Outdoors(s)
  {
    var i := IndexOf(s, x).value;
    assert s == s[..i] + ([s[i]] + s[i + 1..]);
    OutdoorsAppend(s[..i], [s[i]] + s[i + 1..]);
    OutdoorsAppend([s[i]], s[i + 1..]);
    OutdoorsAppend(s[..i], s[i + 1..]);
  }

  /** `xs` is an order-preserving subsequence of `ys`. */
  predicate Subsequence<T(==)>(xs: seq<T>, ys: seq<T>)
    decreases |ys|
  {
    if |ys| == 0 then |xs| == 0
    else Subsequence(xs, ys[1..]) || (|xs| > 0 && xs[0] == ys[0] && Subsequence(xs[1..], ys[1..]))
  }

  /** Dropping one element of `ys` cannot make it lose a subsequence. */
  lemma {:induction false} SubsequenceOfRemoved<T>(xs: seq<T>, ys: seq<T>, i: nat)
    requires i < |ys| && Subsequence(xs, ys[..i] + ys[i + 1..])
    ensures Subsequence(xs, ys)
  {
    if i > 0 {
      var zs := ys[..i] + ys[i + 1..];
      assert zs[1..] == ys[1..][..i - 1] + ys[1..][i..];
      if Subsequence(xs, zs[1..]) {
        SubsequenceOfRemoved(xs, ys[1..], i - 1);
      } else {
        SubsequenceOfRemoved(xs[1..], ys[1..], i - 1);
      }
    } else {
      assert ys[1..] == ys[..0] + ys[1..];
    }
  }

  /** `build_apertures_from_double_definition` after the rows are read: an
      outdoor aperture is kept; an indoor one must have exactly one mirror of
      the same area (AssertionError otherwise), is kept, and both it and its
      mirror are removed; removing a mirror that is no longer there raises
      ValueError. */
  function Deduplicated(apertures: seq<Aperture>): (r: Result<seq<Aperture>>)
    decreases |apertures|
  {
    if |apertures| == 0 then Ok([])
    else
      var aperture := apertures[0];
      if IsOutdoor(aperture) then
        var rest :- Deduplicated(apertures[1..]);
        Ok([aperture] + rest)
      else
        var matching := MirrorsOf(apertures, aperture);
        if |matching| != 1 then Err("AssertionError")
        else if matching[0].area != aperture.area then Err("AssertionError")
        else
          var remaining :- RemoveFirst(apertures[1..], matching[0]);
          var rest :- Deduplicated(remaining);
          Ok([aperture] + rest)
  }

  /** The result is an in-order subsequence of the input that keeps every
      outdoor aperture, and holds each outdoor aperture once and one of each
      mirrored pair: twice its length is the input length plus the outdoor
      count. */
  lemma {:induction false} DeduplicatedShape(apertures: seq<Aperture>)
    ensures Deduplicated(apertures).Ok? ==> Subsequence(Deduplicated(apertures).value, apertures)
    ensures Deduplicated(apertures).Ok? ==>
      forall x :: x in apertures && IsOutdoor(x) ==> x in Deduplicated(apertures).value
    ensures Deduplicated(apertures).Ok? ==>
      2 * |Deduplicated(apertures).value| == |apertures| + Outdoors(apertures)
    decreases |apertures|
  {
    if |apertures| > 0 && Deduplicated(apertures).Ok? {
      var aperture := apertures[0];
      var out := Deduplicated(apertures).value;
      if IsOutdoor(aperture) {
        DeduplicatedShape(apertures[1..]);
        assert out[1..] == Deduplicated(apertures[1..]).value;
      } else {
        var m := MirrorsOf(apertures, aperture)[0];
        assert m in MirrorsOf(apertures, aperture);
        assert !IsOutdoor(m);
        var remaining := RemoveFirst(apertures[1..], m).value;
        DeduplicatedShape(remaining);
        assert out[1..] == Deduplicated(remaining).value;
        var i := IndexOf(apertures[1..], m).value;
        SubsequenceOfRemoved(out[1..], apertures[1..], i);
        RemoveIndoorKeepsOutdoors(apertures[1..], m);
        RemoveFirstCount(apertures[1..], m);
        forall x | x in apertures && IsOutdoor(x)
          ensures x in out
        {
          if x != aperture {
            assert x in apertures[1..];
            assert x != m;
            assert multiset(remaining) == multiset(apertures[1..]) - multiset{m};
            assert x in multiset(remaining);
          }
        }
      }
    }
  }

  /** The first step: an indoor first aperture without exactly one mirror
      fails the assertion. */
  lemma UnmatchedFails(apertures: seq<Aperture>)
    requires |apertures| > 0 && !IsOutdoor(apertures[0])
    requires |MirrorsOf(apertures, apertures[0])| != 1
    ensures Deduplicated(apertures) == Err("AssertionError")
  {
  }

  /** An aperture from a room to itself is its own only mirror: it is removed
      once as the aperture and again as its mirror, which raises ValueError. */
  lemma SelfLoopRaises(a: Aperture)
    requires a.destination == Room(a.origin)
    ensures Deduplicated([a]) == Err("list.remove(x): x not in list")
  {
    assert MirrorsOf([a][1..], a) == [];
    assert MirrorsOf([a], a) == [a];
  }

  /** A room with one window on each side keeps both; a doorway written in
      both directions keeps its first row only. */
  lemma TwoRoomsExample()
    ensures Deduplicated([
      Aperture(0, 0, Outside(Front), 1.0, Front),
      Aperture(1, 0, Room(1), 2.0, Unknown),
      Aperture(2, 1, Room(0), 2.0, Unknown),
      Aperture(3, 1, Outside(Back), 1.0, Back)]) ==
      Ok([Aperture(0, 0, Outside(Front), 1.0, Front),
          Aperture(1, 0, Room(1), 2.0, Unknown),
          Aperture(3, 1, Outside(Back), 1.0, Back)])
  {
    var w0 := Aperture(0, 0, Outside(Front), 1.0, Front);
    var d1 := Aperture(1, 0, Room(1), 2.0, Unknown);
    var d2 := Aperture(2, 1, Room(0), 2.0, Unknown);
    var w3 := Aperture(3, 1, Outside(Back), 1.0, Back);
    assert [w0, d1, d2, w3][1..] == [d1, d2, w3];
    assert [d1, d2, w3][1..] == [d2, w3];
    assert [d2, w3][1..] == [w3];
    assert MirrorsOf([w3], d1) == [];
    assert MirrorsOf([d2, w3], d1) == [d2];
    assert MirrorsOf([d1, d2, w3], d1) == [d2];
    RemoveHead([d2, w3]);
    assert Deduplicated([w3]) == Ok([w3]) by {
      assert [w3][1..] == [];
      assert Deduplicated([]) == Ok([]);
      assert [w3] + [] == [w3];
    }
    assert [d1] + [w3] == [d1, w3];
    assert Deduplicated([d1, d2, w3]) == Ok([d1, w3]);
    assert [w0] + [d1, w3] == [w0, d1, w3];
  }

  /** `out` appended to what came before, unless it failed. */
  function After(result: seq<Aperture>, out: Result<seq<Aperture>>): Result<seq<Aperture>>
  {
    if out.Err? then out else Ok(result + out.value)
  }

  lemma AfterHead(result: seq<Aperture>, a: Aperture, rest: Result<seq<Aperture>>)
    ensures After(result, (var t :- rest; Ok([a] + t))) == After(result + [a], rest)
  {
    if rest.Ok? {
      assert result + ([a] + rest.value) == result + [a] + rest.value;
    }
  }

  /** The removal loop of `build_apertures_from_double_definition`; each pass
      removes at least one aperture, so it terminates. */
  method Deduplicate(built: seq<Aperture>) returns (r: Result<seq<Aperture>>)
    ensures r == Deduplicated(built)
  {
    var apertures := built;
    var result: seq<Aperture> := [];
    assert Deduplicated(built).Ok? ==> [] + Deduplicated(built).value == Deduplicated(built).value;
    while |apertures| > 0
      invariant Deduplicated(built) == After(result, Deduplicated(apertures))
      decreases |apertures|
    {
      var aperture := apertures[0];
      var afterFirst := RemoveFirst(apertures, aperture);
      RemoveHead(apertures);
      if IsOutdoor(aperture) {
        AfterHead(result, aperture, Deduplicated(afterFirst.value));
        result := result + [aperture];
        apertures := afterFirst.value;
      } else {
        var matching := MirrorsOf(apertures, aperture);
        if |matching| != 1 {
          return Err("AssertionError");
        }
        var matchingAperture := matching[0];
        if matchingAperture.area != aperture.area {
          return Err("AssertionError");
        }
        var afterMirror := RemoveFirst(afterFirst.value, matchingAperture);
        if afterMirror.Err? {
          return Err(afterMirror.msg);
        }
        AfterHead(result, aperture, Deduplicated(afterMirror.value));
        result := result + [aperture];
        apertures := afterMirror.value;
      }
    }
    assert result + [] == result;
    return Ok(result);
  }

  /** `build_apertures_from_double_definition`: the rows' apertures, each
      mirrored indoor pair reduced to its first row. */
  method BuildAperturesFromDoubleDefinition(rows: seq<Row>, rooms: map<int, nat>) returns (r: Result<seq<Aperture>>)
    ensures AperturesOf(rows, rooms, |rows|).Err? ==> r == AperturesOf(rows, rooms, |rows|)
    ensures AperturesOf(rows, rooms, |rows|).Ok? ==> r == Deduplicated(AperturesOf(rows, rooms, |rows|).value)
  {
    var apertures := BuildApertures(rows, rooms);
    if apertures.Err? {
      return apertures;
    }
    r := Deduplicate(apertures.value);
  }
}
