/** The browser layout editor's link state: squares on the canvas (rooms and
    apertures), the selection of at most two rooms in link mode, the aperture
    table mapping each aperture to the rooms it connects, the per-square data
    table, and the handlers that add, link, delete and load squares. */
module LinkEditor {
  import opened Wrappers
  import opened ViewItems

  datatype Kind = RoomSquare | ApertureSquare

  /** A square on the canvas, known by its generated id. */
  datatype Square = Square(id: string, kind: Kind)

  /** The data object kept for a square: its label and the room volume of
      `customData` (null until edited). */
  datatype SquareData = SquareData(labelText: string, volume: Option<real>)

  /** One entry of a saved layout. */
  datatype LayoutItem = LayoutItem(square: Square, data: SquareData, connectedRooms: Option<seq<string>>)

  /** `s.filter(y => y !== x)`: every entry other than `x`, in order. */
  function Without<T(==,!new)>(s: seq<T>, x: T): (r: seq<T>)
    ensures x !in r && |r| <= |s|
    ensures forall y :: y in r <==> y in s && y != x
    ensures x !in s ==> r == s
  {
    if |s| == 0 then []
    else if s[0] == x then Without(s[1..], x)
    else
      assert s == [s[0]] + s[1..];
      [s[0]] + Without(s[1..], x)
  }

  /** `element.remove()` on the entry of `s` equal to `x`: the first such
      entry leaves and the others stay in order. */
  function RemoveFirst<T(==)>(s: seq<T>, x: T): (r: seq<T>)
    ensures x !in s ==> r == s
    ensures x in s ==> |r| == |s| - 1
  {
    if |s| == 0 then []
    else if s[0] == x then s[1..]
    else [s[0]] + RemoveFirst(s[1..], x)
  }

  /** Exactly one entry equal to `x` leaves, when there is one. */
  lemma {:induction false} RemoveFirstCount<T>(s: seq<T>, x: T)
    ensures multiset(RemoveFirst(s, x)) == multiset(s) - multiset{x}
  {
    if |s| > 0 {
      assert s == [s[0]] + s[1..];
      if s[0] != x {
        RemoveFirstCount(s[1..], x);
      }
    }
  }

  /** Every other entry stays, and nothing new appears. */
  lemma RemoveFirstKeeps<T>(s: seq<T>, x: T, y: T)
    ensures y in RemoveFirst(s, x) ==> y in s
    ensures y != x && y in s ==> y in RemoveFirst(s, x)
  {
    RemoveFirstCount(s, x);
    assert y in RemoveFirst(s, x) <==> y in multiset(RemoveFirst(s, x));
    assert y in s <==> y in multiset(s);
  }

  /** The entry removed is the first one equal to `x`, at `k`: the entries
      before and after it stay in place. */
  lemma {:induction false} RemoveFirstAt<T>(s: seq<T>, x: T, k: nat)
    requires k < |s| && s[k] == x && x !in s[..k]
    ensures RemoveFirst(s, x) == s[..k] + s[k + 1..]
  {
    if k > 0 {
      assert s[0] in s[..k];
      assert s[1..][..k - 1] == s[1..k];
      RemoveFirstAt(s[1..], x, k - 1);
      assert s[1..][..k - 1] + s[1..][k..] == s[1..k] + s[k + 1..];
      assert s[..k] == [s[0]] + s[1..k];
    }
  }

  /** Filtering out an entry that occurs once, at `k`, cuts exactly that
      position and keeps the others in order. */
  lemma {:induction false} WithoutSingle<T(!new)>(s: seq<T>, x: T, k: nat)
    requires k < |s| && s[k] == x
    requires forall j :: 0 <= j < |s| && j != k ==> s[j] != x
    ensures Without(s, x) == s[..k] + s[k + 1..]
  {
    if k == 0 {
      assert x !in s[1..];
    } else {
      WithoutSingle(s[1..], x, k - 1);
      assert s[1..][..k - 1] + s[1..][k..] == s[1..k] + s[k + 1..];
      assert s[..k] == [s[0]] + s[1..k];
    }
  }

  /** Filtering keeps a list without repeats free of repeats. */
  lemma {:induction false} WithoutDistinct<T(!new)>(s: seq<T>, x: T)
    requires forall i, j :: 0 <= i < j < |s| ==> s[i] != s[j]
    ensures forall i, j :: 0 <= i < j < |Without(s, x)| ==> Without(s, x)[i] != Without(s, x)[j]
  {
    if |s| > 0 {
      WithoutDistinct(s[1..], x);
      if s[0] != x {
        assert s[0] !in s[1..] by {
          forall k | 0 <= k < |s[1..]|
            ensures s[1..][k] != s[0]
          {
            assert s[1..][k] == s[k + 1];
          }
        }
      }
    }
  }

  /** `selectedRooms.map(r => r.dataset.id)`. */
  function Ids(s: seq<Square>): (r: seq<string>)
    ensures |r| == |s| && forall i :: 0 <= i < |s| ==> r[i] == s[i].id
  {
    seq(|s|, i requires 0 <= i < |s| => s[i].id)
  }

  /** The apertures a loaded layout registers, processed in order from the
      table `m`: each aperture item sets its id to its connected rooms, [] when
      the item has none. */
  function RegisterApertures(items: seq<LayoutItem>, m: map<string, seq<string>>): (r: map<string, seq<string>>)
    ensures forall id :: id in r <==> id in m || exists i :: 0 <= i < |items| && items[i].square == Square(id, ApertureSquare)
  {
    if |items| == 0 then m
    else
      var it := items[0];
      var m' := if it.square.kind == ApertureSquare then
                  m[it.square.id := if it.connectedRooms.Some? then it.connectedRooms.value else []]
                else m;
      var r := RegisterApertures(items[1..], m');
      assert forall i :: 1 <= i < |items| ==> items[i] == items[1..][i - 1];
      r
  }

  /** The data table a loaded layout fills, in order from the table `m`. */
  function RegisterData(items: seq<LayoutItem>, m: map<string, SquareData>): (r: map<string, SquareData>)
    ensures forall id :: id in r <==> id in m || exists i :: 0 <= i < |items| && items[i].square.id == id
  {
    if |items| == 0 then m
    else
      var r := RegisterData(items[1..], m[items[0].square.id := items[0].data]);
      assert forall i :: 1 <= i < |items| ==> items[i] == items[1..][i - 1];
      r
  }

  /** With distinct ids, each aperture item's entry is its own connected rooms. */
  lemma {:induction false} RegisteredEntry(items: seq<LayoutItem>, m: map<string, seq<string>>, k: nat)
    requires k < |items| && items[k].square.kind == ApertureSquare
    requires forall i, j :: 0 <= i < j < |items| ==> items[i].square.id != items[j].square.id
    ensures RegisterApertures(items, m)[items[k].square.id] ==
            (if items[k].connectedRooms.Some? then items[k].connectedRooms.value else [])
  {
    var it := items[0];
    var m' := if it.square.kind == ApertureSquare then
                m[it.square.id := if it.connectedRooms.Some? then it.connectedRooms.value else []]
              else m;
    if k == 0 {
      UntouchedEntry(items[1..], m', it.square.id);
    } else {
      RegisteredEntry(items[1..], m', k - 1);
    }
  }

  /** Later items with other ids leave an entry as it is. */
  lemma {:induction false} UntouchedEntry(items: seq<LayoutItem>, m: map<string, seq<string>>, id: string)
    requires id in m
    requires forall i :: 0 <= i < |items| ==> items[i].square.id != id
    ensures RegisterApertures(items, m)[id] == m[id]
  {
    if |items| > 0 {
      var it := items[0];
      var m' := if it.square.kind == ApertureSquare then
                  m[it.square.id := if it.connectedRooms.Some? then it.connectedRooms.value else []]
                else m;
      assert forall i :: 0 <= i < |items[1..]| ==> items[1..][i] == items[i + 1];
      UntouchedEntry(items[1..], m', id);
    }
  }

  /** The data entry `RegisterData` leaves for one of its items' ids. */
  lemma {:induction false} RegisteredData(items: seq<LayoutItem>, m: map<string, SquareData>, k: nat)
    requires k < |items|
    requires forall i, j :: 0 <= i < j < |items| ==> items[i].square.id != items[j].square.id
    ensures RegisterData(items, m)[items[k].square.id] == items[k].data
  {
    var m' := m[items[0].square.id := items[0].data];
    if k == 0 {
      UntouchedData(items[1..], m', items[0].square.id);
    } else {
      RegisteredData(items[1..], m', k - 1);
    }
  }

  /** Later items with other ids leave a data entry as it is. */
  lemma {:induction false} UntouchedData(items: seq<LayoutItem>, m: map<string, SquareData>, id: string)
    requires id in m
    requires forall i :: 0 <= i < |items| ==> items[i].square.id != id
    ensures RegisterData(items, m)[id] == m[id]
  {
    if |items| > 0 {
      assert forall i :: 0 <= i < |items[1..]| ==> items[1..][i] == items[i + 1];
      UntouchedData(items[1..], m[items[0].square.id := items[0].data], id);
    }
  }

  /** The entry `saveLayout` writes for square `sq`: its data, or an empty
      label and no volume when it has none, and for a registered aperture its
      connected rooms. */
  function SaveItem(sq: Square, apertures: map<string, seq<string>>, squareData: map<string, SquareData>): LayoutItem
  {
    LayoutItem(sq,
               if sq.id in squareData then squareData[sq.id] else SquareData("", None),
               if sq.kind == ApertureSquare && sq.id in apertures then Some(apertures[sq.id]) else None)
  }

  /** `saveLayout`: one entry per square, in canvas order. */
  function SaveLayout(canvas: seq<Square>, apertures: map<string, seq<string>>, squareData: map<string, SquareData>): (items: seq<LayoutItem>)
    ensures |items| == |canvas|
    ensures forall i :: 0 <= i < |canvas| ==> items[i].square == canvas[i]
  {
    seq(|canvas|, i requires 0 <= i < |canvas| => SaveItem(canvas[i], apertures, squareData))
  }

  /** Loading a saved layout of squares with distinct ids gives back the
      canvas, every aperture's connected rooms ([] for an unregistered one) and
      every square's data entry; entries of squares no longer on the canvas are
      not saved, so they do not come back. */
  lemma SaveThenLoad(canvas: seq<Square>, apertures: map<string, seq<string>>, squareData: map<string, SquareData>)
    requires DistinctSquares(canvas)
    ensures var items := SaveLayout(canvas, apertures, squareData);
      seq(|items|, i requires 0 <= i < |items| => items[i].square) == canvas
    ensures forall id :: id in RegisterApertures(SaveLayout(canvas, apertures, squareData), map[]) <==>
      Square(id, ApertureSquare) in canvas
    ensures forall id :: id in RegisterData(SaveLayout(canvas, apertures, squareData), map[]) <==>
      exists i :: 0 <= i < |canvas| && canvas[i].id == id
    ensures forall k :: 0 <= k < |canvas| && canvas[k].kind == ApertureSquare ==>
      RegisterApertures(SaveLayout(canvas, apertures, squareData), map[])[canvas[k].id] ==
      (if canvas[k].id in apertures then apertures[canvas[k].id] else [])
    ensures forall k :: 0 <= k < |canvas| && canvas[k].id in squareData ==>
      RegisterData(SaveLayout(canvas, apertures, squareData), map[])[canvas[k].id] == squareData[canvas[k].id]
  {
    var items := SaveLayout(canvas, apertures, squareData);
    forall k | 0 <= k < |canvas| && canvas[k].kind == ApertureSquare
      ensures RegisterApertures(items, map[])[canvas[k].id] ==
              (if canvas[k].id in apertures then apertures[canvas[k].id] else [])
    {
      RegisteredEntry(items, map[], k);
    }
    forall k | 0 <= k < |canvas| && canvas[k].id in squareData
      ensures RegisterData(items, map[])[canvas[k].id] == squareData[canvas[k].id]
    {
      RegisteredData(items, map[], k);
    }
    forall id | Square(id, ApertureSquare) in canvas
      ensures id in RegisterApertures(items, map[])
    {
      var i :| 0 <= i < |canvas| && canvas[i] == Square(id, ApertureSquare);
      assert items[i].square == Square(id, ApertureSquare);
    }
  }

  /** When the aperture table has exactly the apertures on the canvas,
      loading the saved layout restores it. */
  lemma SaveThenLoadRestoresApertures(canvas: seq<Square>, apertures: map<string, seq<string>>, squareData: map<string, SquareData>)
    requires DistinctSquares(canvas)
    requires forall id :: id in apertures <==> Square(id, ApertureSquare) in canvas
    ensures RegisterApertures(SaveLayout(canvas, apertures, squareData), map[]) == apertures
  {
    SaveThenLoad(canvas, apertures, squareData);
    var ap := RegisterApertures(SaveLayout(canvas, apertures, squareData), map[]);
    assert ap.Keys == apertures.Keys;
    forall id | id in apertures
      ensures ap[id] == apertures[id]
    {
      var k :| 0 <= k < |canvas| && canvas[k] == Square(id, ApertureSquare);
      assert canvas[k].kind == ApertureSquare;
    }
  }

  /** When the data table has exactly the squares on the canvas, loading the
      saved layout restores it. */
  lemma SaveThenLoadRestoresData(canvas: seq<Square>, apertures: map<string, seq<string>>, squareData: map<string, SquareData>)
    requires DistinctSquares(canvas)
    requires forall id :: id in squareData <==> exists i :: 0 <= i < |canvas| && canvas[i].id == id
    ensures RegisterData(SaveLayout(canvas, apertures, squareData), map[]) == squareData
  {
    SaveThenLoad(canvas, apertures, squareData);
    var d := RegisterData(SaveLayout(canvas, apertures, squareData), map[]);
    assert d.Keys == squareData.Keys;
    forall id | id in squareData
      ensures d[id] == squareData[id]
    {
      var k :| 0 <= k < |canvas| && canvas[k].id == id;
      assert canvas[k].id in squareData;
    }
  }

  /** The ids of the rooms in `canvas`. */
  function RoomIdsOf(canvas: seq<Square>): set<string>
  {
    set s | s in canvas && s.kind == RoomSquare :: s.id
  }

  /** Every id an aperture of `apertures` connects names a room of `canvas`. */
  predicate LinksOnCanvas(canvas: seq<Square>, apertures: map<string, seq<string>>)
  {
    forall a, k :: a in apertures && 0 <= k < |apertures[a]| ==> apertures[a][k] in RoomIdsOf(canvas)
  }

  /** No two squares of `canvas` share an id. */
  predicate DistinctSquares(canvas: seq<Square>)
  {
    forall i, j :: 0 <= i < j < |canvas| ==> canvas[i].id != canvas[j].id
  }

  class Pane {
    var canvas: seq<Square>
    var selected: Option<Square>
    var linkMode: bool
    var selectedRooms: seq<Square>
    var apertures: map<string, seq<string>>
    var squareData: map<string, SquareData>
    var roomCounter: nat

    /** The page as loaded: an empty canvas, nothing selected, the room counter at 1. */
    constructor ()
      ensures canvas == [] && selected == None && !linkMode && selectedRooms == []
      ensures apertures == map[] && squareData == map[] && roomCounter == 1
    {
      canvas := [];
      selected := None;
      linkMode := false;
      selectedRooms := [];
      apertures := map[];
      squareData := map[];
      roomCounter := 1;
    }

    /** The link selection: at most two rooms, none twice. */
    predicate SelectionOk()
      reads this
    {
      |selectedRooms| <= 2 &&
      (forall i :: 0 <= i < |selectedRooms| ==> selectedRooms[i].kind == RoomSquare) &&
      forall i, j :: 0 <= i < j < |selectedRooms| ==> selectedRooms[i] != selectedRooms[j]
    }

    /** Every selected room is still on the canvas. */
    predicate SelectionOnCanvas()
      reads this
    {
      forall r :: r in selectedRooms ==> r in canvas
    }

    /** The ids of the rooms on the canvas. */
    function RoomIds(): set<string>
      reads this
    {
      RoomIdsOf(canvas)
    }

    /** Every id an aperture connects names a room on the canvas. */
    predicate Linked()
      reads this
    {
      LinksOnCanvas(canvas, apertures)
    }

    /** No two squares on the canvas share an id. */
    predicate DistinctIds()
      reads this
    {
      DistinctSquares(canvas)
    }

    /** `selectSquare`: the square becomes the selected one. */
    method SelectSquare(sq: Square)
      modifies this`selected
      ensures selected == Some(sq)
    {
      selected := Some(sq);
    }

    /** A click on square `sq`, as the handler `addSquare` and `loadLayout`
        attach: in link mode a room toggles its place in the link selection and
        an aperture takes the selected rooms; otherwise the square is selected. */
    method ClickSquare(sq: Square)
      requires SelectionOk()
      modifies this`selected, this`selectedRooms, this`apertures, this`linkMode
      ensures SelectionOk()
      ensures !old(linkMode) ==>
                selected == Some(sq) && selectedRooms == old(selectedRooms) && apertures == old(apertures) && !linkMode
      ensures old(linkMode) && sq.kind == RoomSquare ==>
                linkMode && selected == old(selected) && apertures == old(apertures)
      ensures old(linkMode) && sq.kind == RoomSquare && sq in old(selectedRooms) ==> sq !in selectedRooms
      ensures old(linkMode) && sq.kind == RoomSquare && sq !in old(selectedRooms) && |old(selectedRooms)| < 2 ==>
                selectedRooms == old(selectedRooms) + [sq]
      ensures old(linkMode) && sq.kind == ApertureSquare ==> selected == old(selected)
      ensures old(linkMode) && sq.kind == ApertureSquare && sq.id in old(apertures) ==>
                apertures == old(apertures)[sq.id := Ids(old(selectedRooms))] && selectedRooms == [] && !linkMode
    {
      if linkMode && sq.kind == RoomSquare {
        ToggleRoomSelection(sq);
        return;
      }
      if linkMode && sq.kind == ApertureSquare {
        LinkRoomsToAperture(sq);
        return;
      }
      SelectSquare(sq);
    }

    /** A click outside every square and outside the data editor: nothing is
        selected any more. */
    method ClickBackground()
      modifies this`selected
      ensures selected == None
    {
      selected := None;
    }

    /** An edit in the data editor, `parsed` being what `JSON.parse` makes of
        its text (None where it throws): with a square selected, valid data
        replaces that square's entry; otherwise the table is unchanged. */
    method EditData(parsed: Option<SquareData>)
      modifies this`squareData
      ensures selected.Some? && parsed.Some? ==> squareData == old(squareData)[selected.value.id := parsed.value]
      ensures selected.None? || parsed.None? ==> squareData == old(squareData)
    {
      if selected.None? || parsed.None? {
        return;
      }
      squareData := squareData[selected.value.id := parsed.value];
    }

    /** `addSquare(type)` with the generated id `id`: a room takes the label
        "Room k" from the counter, which then advances; an aperture is registered
        with no connected rooms; the square gets its data entry and becomes the
        selected one. */
    method AddSquare(kind: Kind, id: string)
      requires forall s :: s in canvas ==> s.id != id
      modifies this`canvas, this`roomCounter, this`apertures, this`squareData, this`selected
      ensures canvas == old(canvas) + [Square(id, kind)] && selected == Some(Square(id, kind))
      ensures kind == RoomSquare ==> (roomCounter == old(roomCounter) + 1 && apertures == old(apertures) &&
        squareData == old(squareData)[id := SquareData(RoomLabel(old(roomCounter)), None)])
      ensures kind == ApertureSquare ==> (roomCounter == old(roomCounter) && apertures == old(apertures)[id := []] &&
        squareData == old(squareData)[id := SquareData("Aperture", None)])
    {
      var text := "Aperture";
      if kind == RoomSquare {
        text := RoomLabel(roomCounter);
        roomCounter := roomCounter + 1;
      }
      canvas := canvas + [Square(id, kind)];
      if kind == ApertureSquare {
        apertures := apertures[id := []];
      }
      squareData := squareData[id := SquareData(text, None)];
      selected := Some(Square(id, kind));
    }

    /** `toggleRoomSelection`: a room already selected leaves the selection, a
        new room joins it while fewer than two are selected, and clicks on
        anything else are ignored. */
    method ToggleRoomSelection(sq: Square)
      requires SelectionOk()
      modifies this`selectedRooms
      ensures SelectionOk()
      ensures sq.kind != RoomSquare ==> selectedRooms == old(selectedRooms)
      ensures sq.kind == RoomSquare && sq in old(selectedRooms) ==> selectedRooms == Without(old(selectedRooms), sq)
      ensures sq.kind == RoomSquare && sq !in old(selectedRooms) && |old(selectedRooms)| < 2 ==>
        selectedRooms == old(selectedRooms) + [sq]
      ensures sq.kind == RoomSquare && sq !in old(selectedRooms) && |old(selectedRooms)| >= 2 ==>
        selectedRooms == old(selectedRooms)
    {
      if sq.kind != RoomSquare {
        return;
      }
      if sq in selectedRooms {
        var k :| 0 <= k < |selectedRooms| && selectedRooms[k] == sq;
        WithoutSingle(selectedRooms, sq, k);
        selectedRooms := Without(selectedRooms, sq);
      } else if |selectedRooms| < 2 {
        selectedRooms := selectedRooms + [sq];
      }
    }

    /** `enterLinkMode`: link mode on and the selection emptied. */
    method EnterLinkMode()
      modifies this`linkMode, this`selectedRooms
      ensures linkMode && selectedRooms == []
    {
      linkMode := true;
      selectedRooms := [];
    }

    /** `linkRoomsToAperture`: a registered aperture now connects the selected
        rooms, in selection order, and the selection and link mode are cleared;
        an unknown aperture changes nothing. */
    method LinkRoomsToAperture(aperture: Square)
      modifies this`apertures, this`selectedRooms, this`linkMode
      ensures aperture.id !in old(apertures) ==>
        apertures == old(apertures) && selectedRooms == old(selectedRooms) && linkMode == old(linkMode)
      ensures aperture.id in old(apertures) ==>
        apertures == old(apertures)[aperture.id := Ids(old(selectedRooms))] && selectedRooms == [] && !linkMode
      ensures old(Linked()) && old(SelectionOk()) && old(SelectionOnCanvas()) ==> Linked()
    {
      if aperture.id !in apertures {
        return;
      }
      ghost var rooms := selectedRooms;
      apertures := apertures[aperture.id := Ids(selectedRooms)];
      selectedRooms := [];
      linkMode := false;
      if old(Linked()) && old(SelectionOk()) && old(SelectionOnCanvas()) {
        forall a, k | a in apertures && 0 <= k < |apertures[a]|
          ensures apertures[a][k] in RoomIds()
        {
          if a == aperture.id {
            assert rooms[k] in rooms && rooms[k].kind == RoomSquare;
            assert rooms[k] in canvas;
          } else {
            assert apertures[a] == old(apertures)[a];
          }
        }
      }
    }

    /** `selected.remove()`: the selected square's own entry leaves the
        canvas list; another square equal to it stays. */
    method RemoveFromCanvas(sq: Square)
      modifies this`canvas
      ensures canvas == RemoveFirst(old(canvas), sq)
    {
      canvas := RemoveFirst(canvas, sq);
    }

    /** Removes the room id `id` from the connected rooms of every aperture,
        keeping the other ids in order. */
    method ForgetRoom(id: string)
      modifies this`apertures
      ensures apertures.Keys == old(apertures).Keys
      ensures forall a :: a in apertures ==> apertures[a] == Without(old(apertures)[a], id)
    {
      var todo := apertures.Keys;
      while todo != {}
        invariant todo <= apertures.Keys && apertures.Keys == old(apertures).Keys
        invariant forall a :: a in apertures && a in todo ==> apertures[a] == old(apertures)[a]
        invariant forall a :: a in apertures && a !in todo ==> apertures[a] == Without(old(apertures)[a], id)
        decreases todo
      {
        var a :| a in todo;
        apertures := apertures[a := Without(apertures[a], id)];
        todo := todo - {a};
      }
    }

    /** The Delete key with a square selected: an aperture leaves the aperture
        table; a room's id leaves every aperture's connected rooms. The square
        leaves the canvas and nothing is selected afterwards. The data table and
        the link selection are left as they were. */
    method DeleteSelected()
      modifies this`apertures, this`canvas, this`selected
      ensures old(selected).None? ==> apertures == old(apertures) && canvas == old(canvas) && selected == None
      ensures old(selected).Some? && old(selected).value.kind == ApertureSquare ==>
        apertures == old(apertures) - {old(selected).value.id}
      ensures old(selected).Some? && old(selected).value.kind == RoomSquare ==>
        apertures.Keys == old(apertures).Keys &&
        forall a :: a in apertures ==> apertures[a] == Without(old(apertures)[a], old(selected).value.id)
      ensures old(selected).Some? ==> canvas == RemoveFirst(old(canvas), old(selected).value) && selected == None
      ensures old(Linked()) && old(DistinctIds()) ==> Linked() && DistinctIds()
    {
      if selected.None? {
        return;
      }
      var sq := selected.value;
      ghost var canvas0, apertures0 := canvas, apertures;
      if sq.kind == ApertureSquare {
        apertures := apertures - {sq.id};
      } else {
        ForgetRoom(sq.id);
      }
      RemoveFromCanvas(sq);
      selected := None;
      if LinksOnCanvas(canvas0, apertures0) && DistinctSquares(canvas0) {
        RemoveFirstDistinct(canvas0, sq);
        DeleteKeepsLinks(canvas0, canvas, apertures0, apertures, sq);
      }
    }

    /** Deletion as evidently intended: as `DeleteSelected`, and a deleted room
        also leaves the link selection, so the selection stays on the canvas. */
    method DeleteSelectedIntended()
      modifies this`apertures, this`canvas, this`selected, this`selectedRooms
      ensures old(selected).Some? ==> canvas == RemoveFirst(old(canvas), old(selected).value) && selected == None
      ensures old(selected).None? ==> apertures == old(apertures) && canvas == old(canvas) && selectedRooms == old(selectedRooms)
      ensures old(selected).Some? && old(selected).value.kind == ApertureSquare ==>
        apertures == old(apertures) - {old(selected).value.id}
      ensures old(selected).Some? && old(selected).value.kind == RoomSquare ==>
        apertures.Keys == old(apertures).Keys &&
        forall a :: a in apertures ==> apertures[a] == Without(old(apertures)[a], old(selected).value.id)
      ensures old(selected).Some? ==> selectedRooms == Without(old(selectedRooms), old(selected).value)
      ensures old(Linked()) && old(DistinctIds()) ==> Linked() && DistinctIds()
      ensures old(SelectionOnCanvas()) ==> SelectionOnCanvas()
      ensures old(SelectionOk()) ==> SelectionOk()
    {
      if selected.None? {
        return;
      }
      var sq := selected.value;
      ghost var canvas0 := canvas;
      DeleteSelected();
      DropFromSelection(sq, canvas0);
    }

    /** The deleted square `sq` leaves the link selection too, which keeps
        the selection well formed and, since only `sq`'s entry left the
        canvas `canvas0`, on the canvas. */
    method DropFromSelection(sq: Square, ghost canvas0: seq<Square>)
      requires canvas == RemoveFirst(canvas0, sq)
      modifies this`selectedRooms
      ensures selectedRooms == Without(old(selectedRooms), sq)
      ensures old(SelectionOk()) ==> SelectionOk()
      ensures (forall r :: r in old(selectedRooms) ==> r in canvas0) ==> SelectionOnCanvas()
    {
      if SelectionOk() {
        WithoutDistinct(selectedRooms, sq);
      }
      selectedRooms := Without(selectedRooms, sq);
      assert forall i :: 0 <= i < |selectedRooms| ==> selectedRooms[i] in old(selectedRooms);
      if forall r :: r in old(selectedRooms) ==> r in canvas0 {
        forall r | r in selectedRooms
          ensures r in canvas
        {
          RemoveFirstKeeps(canvas0, sq, r);
        }
      }
    }

    /** `loadLayout`: the canvas, the aperture table and the data table are
        rebuilt from the items in order, and nothing is selected. Link mode, the
        link selection and the room counter are not reset. */
    method LoadLayout(items: seq<LayoutItem>)
      modifies this`canvas, this`apertures, this`squareData, this`selected
      ensures canvas == seq(|items|, i requires 0 <= i < |items| => items[i].square)
      ensures apertures == RegisterApertures(items, map[])
      ensures squareData == RegisterData(items, map[])
      ensures selected == None
    {
      canvas := [];
      apertures := map[];
      squareData := map[];
      selected := None;
      var k := 0;
      while k < |items|
        invariant 0 <= k <= |items|
        invariant canvas == seq(k, i requires 0 <= i < k => items[i].square) && selected == None
        invariant RegisterApertures(items[k..], apertures) == RegisterApertures(items, map[])
        invariant RegisterData(items[k..], squareData) == RegisterData(items, map[])
      {
        var it := items[k];
        assert items[k..][1..] == items[k + 1..];
        canvas := canvas + [it.square];
        squareData := squareData[it.square.id := it.data];
        if it.square.kind == ApertureSquare {
          apertures := apertures[it.square.id := if it.connectedRooms.Some? then it.connectedRooms.value else []];
        }
        k := k + 1;
      }
      assert items[k..] == [];
    }
  }

  /** Deleting one square keeps every link pointing at a room still on the
      canvas: a deleted room's id is filtered out of every list, and a deleted
      aperture is not a room. */
  lemma DeleteKeepsLinks(canvas0: seq<Square>, canvas1: seq<Square>,
                         ap0: map<string, seq<string>>, ap1: map<string, seq<string>>, sq: Square)
    requires canvas1 == Without(canvas0, sq)
    requires sq.kind == ApertureSquare ==> ap1 == ap0 - {sq.id}
    requires sq.kind == RoomSquare ==> ap1.Keys == ap0.Keys && forall a :: a in ap1 ==> ap1[a] == Without(ap0[a], sq.id)
    requires DistinctSquares(canvas0) && LinksOnCanvas(canvas0, ap0)
    ensures LinksOnCanvas(canvas1, ap1) && DistinctSquares(canvas1)
  {
    DistinctAfterWithout(canvas0, sq);
    forall a, k | a in ap1 && 0 <= k < |ap1[a]|
      ensures ap1[a][k] in RoomIdsOf(canvas1)
    {
      var id := ap1[a][k];
      assert id in ap1[a];
      if sq.kind == RoomSquare {
        assert id in ap0[a] && id != sq.id;
      } else {
        assert ap1[a] == ap0[a];
      }
      var j :| 0 <= j < |ap0[a]| && ap0[a][j] == id;
      assert id in RoomIdsOf(canvas0);
      var s :| s in canvas0 && s.kind == RoomSquare && s.id == id;
      assert s != sq;
      assert s in canvas1;
    }
  }

  /** On a canvas whose ids are distinct a square occurs at most once, so
      removing its element and filtering it out agree. */
  lemma RemoveFirstDistinct(s: seq<Square>, x: Square)
    requires DistinctSquares(s)
    ensures RemoveFirst(s, x) == Without(s, x)
  {
    if x in s {
      var k :| 0 <= k < |s| && s[k] == x;
      forall j | 0 <= j < |s| && j != k
        ensures s[j] != x
      {
        if j < k {
          assert s[j].id != s[k].id;
        } else {
          assert s[k].id != s[j].id;
        }
      }
      assert x !in s[..k];
      RemoveFirstAt(s, x, k);
      WithoutSingle(s, x, k);
    }
  }

  /** Filtering a square out of a list with distinct ids keeps the ids distinct. */
  lemma {:induction false} DistinctAfterWithout(s: seq<Square>, x: Square)
    requires DistinctSquares(s)
    ensures DistinctSquares(Without(s, x))
  {
    if |s| > 0 {
      DistinctAfterWithout(s[1..], x);
      if s[0] != x {
        var r := Without(s, x);
        assert r == [s[0]] + Without(s[1..], x);
        forall j | 1 <= j < |r|
          ensures r[0].id != r[j].id
        {
          assert r[j] in Without(s[1..], x);
          assert r[j] in s[1..];
        }
      }
    }
  }

  /** A room "r" and an aperture "a" on the canvas, link mode on, "r" in the
      link selection and selected (the mouse press before the click selects it). */
  method LinkModeWithRoomSelected() returns (p: Pane)
    ensures fresh(p)
    ensures p.canvas == [Square("r", RoomSquare), Square("a", ApertureSquare)] && p.apertures == map["a" := []]
    ensures p.selectedRooms == [Square("r", RoomSquare)] && p.selected == Some(Square("r", RoomSquare)) && p.linkMode
  {
    p := new Pane();
    p.AddSquare(RoomSquare, "r");
    p.AddSquare(ApertureSquare, "a");
    assert p.apertures == map["a" := []];
    p.EnterLinkMode();
    p.ToggleRoomSelection(Square("r", RoomSquare));
    p.SelectSquare(Square("r", RoomSquare));
  }

  /** With the handler as written, deleting a selected room in link mode and
      then clicking an aperture links that aperture to the deleted room. */
  method DeleteThenLinkDangles() returns (p: Pane)
    ensures p.apertures == map["a" := ["r"]] && "r" !in p.RoomIds() && !p.Linked()
  {
    p := LinkModeWithRoomSelected();
    p.DeleteSelected();
    assert p.canvas == [Square("a", ApertureSquare)];
    assert p.apertures.Keys == {"a"};
    assert p.selectedRooms == [Square("r", RoomSquare)];
    p.LinkRoomsToAperture(Square("a", ApertureSquare));
    assert Ids([Square("r", RoomSquare)]) == ["r"];
    assert p.apertures["a"] == ["r"];
    assert "r" !in p.RoomIds() by {
      assert forall s :: s in p.canvas ==> s.kind == ApertureSquare;
    }
  }

  /** With the intended deletion the same clicks leave the aperture unlinked. */
  method DeleteThenLinkIntended() returns (p: Pane)
    ensures p.apertures == map["a" := []] && p.Linked()
  {
    p := LinkModeWithRoomSelected();
    p.DeleteSelectedIntended();
    assert p.canvas == [Square("a", ApertureSquare)];
    assert p.selectedRooms == [];
    assert p.apertures.Keys == {"a"};
    p.LinkRoomsToAperture(Square("a", ApertureSquare));
    assert p.apertures["a"] == [];
  }
}
