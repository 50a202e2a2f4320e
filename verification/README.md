# MBM-Flex in Dafny

A model of the deterministic logic of MBM-Flex, a multi-room indoor air
chemistry model built around the INCHEM-Py box model, with proofs of what the
code promises. It covers three groups.

**The room-graph diagram editor** (Views/model.py, Views/test.py,
Views/room_editing_widget.py):
- the persistent room graph and its dictionary form, where edge endpoints are
  node positions;
- the scene items for rooms and connections, each bound to its graph record;
- the geometry that clips a connection to the room borders, with a marker
  when the connection is too short to draw;
- the creation, deletion, moving, resizing and renaming of rooms and
  connections;
- the colour engine that paints every room from the simulation results, and
  the legend's arithmetic;
- the room editing panel: validated value types, the composition editor and
  the emissions dictionary.

**The browser layout editor's link state** (UI/Frontend/pane_script2.js):
- rooms and apertures on a canvas;
- a selection of at most two rooms;
- the aperture table linking each aperture to its rooms;
- delete, save and load.

**The multi-room building model** (multiroom_model/, and the driver
bookkeeping of inchempy/modules/inchem_main.py):
- time-dependent and bracketed values, and surface compositions;
- the outside-to-outside transport paths through the building;
- the discrete rules of the aperture calculations and the concentration
  changes across an aperture;
- aperture de-duplication;
- the JSON and CSV-column builders of rooms;
- light-on intervals and the simulation's stepping schedule;
- from the INCHEM-Py driver: event flags, area-to-volume ratios, integration
  envelopes, time of day and temperature-series extension.

Floating-point numbers are exact reals. Python integers are unbounded
integers, and `int()` truncation is written out. Classes whose fields the
source updates in place are Dafny classes:
- the graph's nodes, edges and graph;
- the scene items and the editor scene;
- the control panel;
- the composition, table and emissions editors of the room editing panel;
- the link-editor pane;
- the aperture calculation and the flow calculator.

Values are datatypes. An operation that raises returns a `Result`. Its error is
the source's message where the model builds it, and otherwise only the
exception's class name (for example "ValueError" or "KeyError").

In multiroom_model/aperture.py an aperture joins `origin` to `destination`,
while its callers read `room1` and `room2`. The model uses one record, with
`room1` as the origin and `room2` as the destination.

## Model

| member | source | states |
|---|---|---|
| GraphModel.SimpleNode.constructor | Views/model.py:1-7 | a node holds exactly the name, position and size it is given |
| GraphModel.SimpleNode.Named | Views/model.py:2-7 | a node given only a name sits at x = y = 0 with width 150 and height 30 |
| GraphModel.SimpleEdge.constructor | Views/model.py:9-13 | an edge holds the given source, target and name |
| GraphModel.SimpleGraph.constructor | Views/model.py:15-18 | a new graph has no nodes and no edges |
| GraphModel.RecordOf | Views/model.py:23-29 | a node record copies name, x, y, width and height |
| GraphModel.SimpleGraph.NodeRecords | Views/model.py:22-30 | one record per node, record i from node i, in list order |
| GraphModel.SimpleGraph.RecordAt | Views/model.py:32-36 | an edge's record holds the first position of each endpoint object in the node list and the edge's name |
| GraphModel.SimpleGraph.EdgeRecords | Views/model.py:31-37 | when every lookup succeeds there is one record per edge |
| GraphModel.SimpleGraph.EdgeRecordsFaithful | Views/model.py:31-37 | the edge records exist exactly when every endpoint is in the node list, and then record i is edge i's record |
| GraphModel.SimpleGraph.ToDict | Views/model.py:20-38 | succeeds exactly when every edge endpoint is a node of the graph; node records in list order; each endpoint written as the first position of that node object (identity), name copied |
| GraphModel.SimpleGraph.NewNodes | Views/model.py:42-51 | the first loop: a fresh graph with one fresh node per record, node i carrying record i's fields, distinct objects, no edges |
| GraphModel.SimpleGraph.FromDict | Views/model.py:40-57 | succeeds exactly when every edge position is inside [-n, n) for n nodes (IndexError otherwise, negative positions counting from the end); node i carries record i; edge i joins the nodes at its resolved positions and keeps its name |
| GraphModel.LoadThenSave | Views/model.py:20-57 | a document whose positions are non-negative and below the node count is saved back unchanged after loading |
| GraphModel.LoadedSaves | Views/model.py:20-57 | any graph holding a document's nodes and resolved edges saves back to exactly that document |
| GraphModel.SaveThenLoad | Views/model.py:20-57 | saving a graph with distinct node objects and loading the result keeps the node fields in order and every edge endpoint at the same position |
| Geometry.Intersects | Views/test.py:498-499 | the line-crossing test the clipping relies on: no intersection exactly for parallel lines, and then no point; a bounded intersection lies on both segments; an unbounded one lies outside one of them |
| Geometry.CrossingOnBoth | Views/test.py:498-500 | the reported crossing point is the same point whether reached along the connection line or along the rectangle side |
| Geometry.Corners | Views/test.py:489-494 | four corners: top-left, top-right, bottom-right, bottom-left |
| Geometry.FirstBoundedSide | Views/test.py:496-501 | the search loop: the first side, in order, with a bounded intersection, every earlier side having none; none when no side has one |
| Geometry.ClipToRect | Views/test.py:487-501 | `_intersectNodeEdge` returns None exactly when no side of the rectangle is crossed within both segments; a returned point lies on the connection line and on the rectangle's border |
| Geometry.SceneRect | Views/test.py:465-488 | the scene rectangle of an unrotated item has non-negative extent and its centre is the item's centre in scene coordinates |
| Geometry.EndpointsOnBorders | Views/test.py:465-476 | `adjust` either falls back to the two centres or uses two points, each on the centre-to-centre line and on the border of its own room |
| Geometry.RouteShape | Views/test.py:477-485 | a route shorter than 15 is a zero-length line at p1 with one marker at the midpoint; any other route is the line p1 to p2 with no marker |
| Geometry.SquaredThreshold | Views/test.py:477-479 | comparing the squared length with 225 decides the same as comparing the length with 15 |
| ViewItems.RoomLabel | Views/test.py:328-329 | every new room is labelled "Room " followed by the counter value |
| ViewItems.RoomLabelsDistinct | Views/test.py:313-329 | rooms created at different counter values get different labels, since the class counter only increases |
| ViewItems.NodeItem.constructor | Views/test.py:315-341 | a new room sits at the origin with rectangle (-75, -15, 150, 30), the handle in its corner, the counter label, no connections, no bound record, dark grey and movable |
| ViewItems.NodeItem.SetPos | Views/test.py:359-366 | after a move every attached connection is routed from the new geometry and the bound record holds the new x and y; size, name and connections are unchanged |
| ViewItems.NodeItem.ReRoute | Views/test.py:360-361 | afterwards every attached connection is routed from the current geometry of its two rooms |
| ViewItems.NodeItem.SetRect | Views/test.py:370-376 | the room takes the given rectangle, the handle moves to its bottom-right corner and the bound record holds the new width and height, its position unchanged |
| ViewItems.NodeItem.DragHandle | Views/test.py:121-131 | the top-left corner stays, width and height follow the mouse but never drop below 50 and 20, the record takes the new size and all connections are re-routed |
| ViewItems.NodeItem.FocusOut | Views/test.py:408-413 | an inline rename takes the stripped text, or keeps the old name when the text is blank; the bound record keeps its old name |
| ViewItems.NodeItem.OpenEditDialog | Views/test.py:420-427 | an accepted dialog with a non-blank stripped name renames the room; otherwise nothing changes; the bound record keeps its old name |
| ViewItems.NodeItem.FocusOutSynced | Views/test.py:408-413 | as FocusOut, and the bound record takes the name the room displays |
| ViewItems.NodeItem.OpenEditDialogSynced | Views/test.py:420-427 | as OpenEditDialog, and on a rename the bound record takes the new name |
| ViewItems.EdgeItem.constructor | Views/test.py:444-456 | a new connection is unnamed, unbound, has no marker and is appended to the connection list of both rooms (twice to one list for a self-loop) |
| ViewItems.EdgeItem.ShowIndicatorCircle | Views/test.py:525-532 | any previous marker is replaced by one at the given centre |
| ViewItems.EdgeItem.RemoveIndicatorCircle | Views/test.py:534-537 | afterwards no marker remains |
| ViewItems.EdgeItem.Adjust | Views/test.py:462-485 | the line and marker become those determined by the two rooms' current geometry, so adjusting twice changes nothing more |
| ViewItems.EdgeItem.OpenEditDialog | Views/test.py:552-562 | an accepted non-blank name renames the connection and its bound record and re-routes it; otherwise the name, line and marker are unchanged; the record's endpoints never change |
| ViewScene.DropEnds | Views/test.py:229-232 | a successful detachment takes one entry out of the room's list per end the connection has at that room, keeps only entries that were there, and leaves the list alone when the connection has no end there |
| ViewScene.DetachedShrinks | Views/test.py:226-232 | detaching k connections that each end at the room removes at least k entries from its list |
| ViewScene.DetachingOwnListEmptiesIt | Views/test.py:226-232 | when every removal succeeds, detaching all of a room's connections leaves its connection list empty |
| ViewScene.Discard | Views/test.py:565-568 | a guarded `list.remove` takes out one entry of the connection if there is one and changes nothing else in the list's contents |
| ViewScene.FirstOther | Views/test.py:184-188 | the result is the first room under the mouse that is not the start room, every earlier one is the start room, and there is none exactly when all of them are the start room |
| ViewScene.SaveLoadKeepsRect | Views/test.py:846-851 | with the intended loaded rectangle, saving and loading a room made in the editor gives back its rectangle and its place on the canvas |
| ViewScene.LoadAsWrittenShifts | Views/test.py:850-851 | with `setRect(0, 0, w, h)` as written, every room made in the editor comes back with a different rectangle, its centre moved by (75, 15) |
| ViewScene.RegisteredAdd | Views/test.py:315-341 | a new room with no connections keeps every connection list consistent with its connections' ends |
| ViewScene.Editor.constructor | Views/test.py:240-243 | a new scene has an empty graph, no items, no drag in progress and the room counter at 1 |
| ViewScene.Editor.RemoveEntry | Views/test.py:230-232 | `list.remove` succeeds exactly when the connection is in the list, then removes its first entry; on failure the list is unchanged |
| ViewScene.Editor.RemoveEnds | Views/test.py:229-232 | both removals succeed exactly when the connection is in the source's and then the destination's list; the room's list loses the connection's entries and no list gains any |
| ViewScene.Editor.DetachEdge | Views/test.py:226-232 | the connection leaves the canvas; the step succeeds exactly when its graph edge is listed and both list removals succeed, and then one copy of its graph edge leaves the graph |
| ViewScene.Editor.DetachNext | Views/test.py:226-232 | one pass of the loop keeps the account of connections removed from the canvas, graph edges removed from the graph and the room's remaining list |
| ViewScene.Editor.DetachLoop | Views/test.py:226-232 | on success every connection of the copied list is off the canvas, each one's graph edge has left the graph once, and the room's list is what the detachments leave |
| ViewScene.Editor.DetachAll | Views/test.py:226-232 | on success all of a room's connections are off the canvas, their graph edges are out of the graph, its list is empty and no list gained an entry |
| ViewScene.Editor.DeleteNode | Views/test.py:225-234 | on success the room and all its connections are off the canvas, their graph edges are gone and the room's graph node has left the graph if it was listed |
| ViewScene.Editor.RemoveRoom | Views/test.py:233-234 | the room leaves the canvas; an unbound room fails; the first entry of its graph node leaves the graph when it is listed, otherwise the graph is unchanged |
| ViewScene.Editor.DeleteEdgeItem | Views/test.py:233-235 | the connection leaves the canvas; an unbound one fails; its graph edge leaves the graph when listed; the rooms' connection lists are untouched |
| ViewScene.Editor.DeleteItem | Views/test.py:223-235 | a deleted room leaves the canvas with an empty list, a deleted connection leaves the canvas, and the graph only loses entries |
| ViewScene.Editor.DeleteSelectedItems | Views/test.py:214-235 | an empty selection or an unconfirmed dialog changes nothing; otherwise every selected room and connection is off the canvas, the graph only loses entries and all connection lists stay consistent |
| ViewScene.Editor.DeleteRoomFromMenu | Views/test.py:415-418 | the room and each of its connections leave the canvas while the graph keeps the room's node and edges |
| ViewScene.Editor.DeleteLinkFromMenu | Views/test.py:564-570 | one entry of the connection leaves its source's list and then its destination's, each only if present; its marker goes and it leaves the canvas, while its graph edge stays |
| ViewScene.Editor.DiscardEnds | Views/test.py:565-568 | the guarded removals from the source's and destination's lists, twice from one list for a self-loop; no list gains an entry |
| ViewScene.Editor.DiscardEntry | Views/test.py:565-568 | a guarded removal takes out one entry when there is one and adds nothing |
| ViewScene.Editor.AddRoom | Views/test.py:267-305 | a new room labelled from the counter sits at the mouse and the counter goes up by one; a graph node with the same name and position and size 150 x 30 is appended and bound to it |
| ViewScene.Editor.DoubleClick | Views/test.py:259-276 | over a room the topmost one opens its edit dialog and nothing is created; over empty canvas exactly one new room is added there |
| ViewScene.Editor.Connect | Views/test.py:193-199 | a new routed connection from a to b is in both rooms' lists and on the canvas, and a graph edge between their bound graph nodes is appended to the graph and bound to it |
| ViewScene.Editor.RightPress | Views/test.py:151-169 | a right press over a room starts a drag from the topmost room and makes it immovable; elsewhere no drag starts |
| ViewScene.Editor.Release | Views/test.py:180-204 | a drag ends with the start room movable again; a connection and its graph edge are added exactly when some room under the mouse is not the start room, and then to the first such room |
| ViewScene.Editor.DropTarget | Views/test.py:184-188 | the loop finds the first room under the mouse other than the start room, or none |
| ViewScene.Editor.PressWithTwoSelected | Views/test.py:278-288 | with exactly two selected rooms the connection is made and registered but the press fails before any graph edge is appended; otherwise nothing changes |
| ViewScene.Editor.PressWithTwoSelectedIntended | Views/test.py:278-288 | with exactly two selected rooms a connection between them is made and its graph edge appended and bound; otherwise nothing changes |
| ViewScene.Editor.LoadRoomAsWritten | Views/test.py:846-852 | a loaded room is bound to its graph node at the saved position but shows the next counter label and gets rectangle (0, 0, w, h); the graph node is unchanged |
| ViewScene.Editor.LoadRoom | Views/test.py:846-852 | the intended loaded room shows the saved name and gets back the rectangle of a room made in the editor; the graph node is unchanged |
| ViewScene.Editor.LoadNextRoom | Views/test.py:845-852 | one pass of the loading loop as written: the next graph node gets a fresh room labelled with the next counter value and rectangle (0, 0, w, h), and the rooms before it keep their facts |
| ViewScene.Editor.LoadRooms | Views/test.py:845-852 | as written: one fresh room per graph node, in order, room k labelled "Room " followed by the counter value plus k, at the node's position with rectangle (0, 0, w, h); the graph nodes are unchanged |
| ViewScene.Editor.LoadNextIntendedRoom | Views/test.py:845-852 | one pass of the intended loading loop: the next graph node gets a fresh room showing its saved name and rectangle |
| ViewScene.Editor.LoadRoomsIntended | Views/test.py:845-852 | as intended: one fresh room per graph node, in order, each bound to its node with its saved name, position and rectangle |
| ViewScene.Editor.LoadLink | Views/test.py:857-861 | a loaded connection joins the two rooms, carries the graph edge's name, is bound to it and is routed |
| ViewScene.Editor.LoadNextLink | Views/test.py:854-861 | one connection for the j-th graph edge, between the rooms at the positions of its endpoints; it fails with ValueError exactly when an endpoint is not a listed node |
| ViewScene.Editor.LoadLinks | Views/test.py:854-861 | loading succeeds exactly when every graph edge's endpoints are listed nodes, and then gives one connection per graph edge, in order, between the rooms at its endpoints' positions |
| ViewScene.Editor.LoadGraph | Views/test.py:840-861 | as written: the scene's graph becomes the loaded graph, with exactly one room per graph node, labelled from the counter with rectangle (0, 0, w, h), and, when every endpoint is listed, exactly one connection per graph edge between the matching rooms |
| ViewScene.Editor.LoadGraphIntended | Views/test.py:840-861 | as intended: the same, with every room showing its saved name and rectangle |
| ViewScene.RenameLeavesRecordStale | Views/test.py:408-413 | after an inline rename of a bound room its graph node still holds the old label, so the name saved differs from the name shown |
| ViewScene.LoadShowsCounterLabel | Views/test.py:846-848 | a loaded room named "Kitchen" shows "Room 1" instead of its saved name |
| Colors.GradientColors | Views/test.py:622-648 | each of the six preset names gives its listed colours in order, every colour is a valid RGB triple, and exactly the unknown names give the single colour dark grey |
| Colors.PresetsHaveTwoStops | Views/test.py:622-666 | a name gives two or more colours exactly when it is a preset, so only an unknown name takes the one-colour shortcut |
| Colors.MixWithin | Views/test.py:652-655 | for t in [0, 1] an interpolated channel with `int()` truncation lies between the two end channels, and t = 0 gives the first channel |
| Colors.InterpolateBetween | Views/test.py:650-655 | for t in [0, 1] every channel of the interpolated colour lies between those of the two colours, so it is a valid colour, and t = 0 gives the first colour back |
| Colors.ScalePosition | Views/test.py:659-662 | equal limits give 0.5; otherwise the low limit maps to 0, the high limit to 1 and values between to [0, 1] |
| Colors.ColorAt | Views/test.py:665-674 | a one-colour gradient always gives that colour, an index at or past the last segment gives the last colour, and an empty gradient fails |
| Colors.SegmentOf | Views/test.py:668-671 | for t in [0, 1] the segment index lies in 0..n and the fraction in [0, 1]; t = 0 gives segment 0 with fraction 0 and t = 1 gives index n |
| Colors.InteriorSegment | Views/test.py:668-674 | below the last stop the colour is the interpolation between the stop the position falls on and the next, by the fractional part |
| Colors.ColorAtInRange | Views/test.py:657-674 | for t in [0, 1] the lookup never fails and gives a valid colour: the first stop at 0, the last at 1, and otherwise the last stop or a colour between two adjacent stops |
| Colors.BelowRangeWraps | Views/test.py:668-674 | a position of -1 on a two-colour gradient indexes stop -1 and shows the last colour, and -3.5 indexes past the start and fails |
| Colors.ColorFromGradient | Views/test.py:657-674 | with equal limits the colour is the one at the middle of the gradient, and a one-colour gradient always gives its colour |
| Colors.GradientEnds | Views/test.py:657-674 | on a proper scale the low limit shows the first colour, the high limit the last, and every value between gets a valid colour |
| Colors.Lookup | Views/test.py:719 | the lookup finds a table stored under the name and fails exactly when no room has that name |
| Colors.SeqMin | Views/test.py:682-684 | the result is an entry of the column and no entry is smaller |
| Colors.SeqMax | Views/test.py:686-688 | the result is an entry of the column and no entry is larger |
| Colors.FirstFailure | Views/test.py:681-695 | the scan of the rooms fails exactly when some room lacks the species or has an empty column, with KeyError or ValueError |
| Colors.MinAll | Views/test.py:682-684 | the result is a value of some room and no room has a smaller value |
| Colors.MaxAll | Views/test.py:686-688 | the result is a value of some room and no room has a larger value |
| Colors.HeadroomExample | Views/test.py:690-691 | data spanning [10, 30] get the scale (5, 35) |
| Colors.HeadroomContains | Views/test.py:690-691 | for non-negative data the scale contains the data, its high end a quarter of the span above the maximum and its low end a quarter below the minimum, clamped at 0 |
| Colors.Limits | Views/test.py:676-695 | no results, an empty species or a room lacking the species give (0, 1), and results with no rooms fail in `min()` |
| Colors.LimitsEncloseData | Views/test.py:676-695 | when every room has non-negative data for the species the limits succeed, are ordered and non-negative, and enclose every value of every room |
| Colors.Nearest | Views/test.py:719 | the chosen time is nearest the slider time, and no earlier time is as near |
| Colors.LastIndexOf | Views/test.py:720-722 | the position holds the label and no later position does |
| Colors.ValueNear | Views/test.py:719-722 | the value read is from a row whose time equals the nearest time |
| Colors.ValueNearUnique | Views/test.py:719-722 | when no time repeats, the value is the species value at the nearest time's own row |
| Colors.NodeColor | Views/test.py:706-726 | no results, no species, a room missing from the results or a species missing from its table give dark grey |
| Colors.NodeColorDefined | Views/test.py:706-726 | when every room has non-negative data for the species, a room present in the results is coloured from the gradient without failing, with a valid colour |
| Colors.Stops | Views/test.py:758-765 | one stop per colour, in order, carrying that colour |
| Colors.StopPositionBounds | Views/test.py:765 | stop positions lie in [0, 1], the first is 0, and with two or more colours the last is 1 |
| Colors.StopPositionIncreasing | Views/test.py:765 | stop positions strictly increase with the colour's index |
| Colors.StopsSpread | Views/test.py:758-765 | the legend's stops start at 0, end at 1 with two or more colours, stay in [0, 1] and strictly increase |
| Colors.Brightness | Views/test.py:761-762 | the adjusted brightness lies in [0, 255] and leaves a value already in range unchanged |
| Colors.Ticks | Views/test.py:772-775 | six ticks from the bar's left edge and the low limit to its right edge and the high limit, equally spaced in both position and value |
| Colors.LegendBarTicks | Views/test.py:754-773 | on the legend's bar the ticks run from x = 50 to the widget width minus 50 |
| RoomEditing.FirstDisorder | Views/room_editing_widget.py:16-18 | the result is the first adjacent pair whose times do not increase, and there is none exactly when all adjacent times increase |
| RoomEditing.ValidateTimeValues | Views/room_editing_widget.py:12-19 | an empty list raises "no times provided", a non-increasing adjacent pair raises "times not in order", and the rows are accepted unchanged exactly when there is at least one and the times strictly increase |
| RoomEditing.FirstBadBracket | Views/room_editing_widget.py:29-31 | the result is the first triple whose start is not before its end, and there is none exactly when every start is before its end |
| RoomEditing.ValidateBrackets | Views/room_editing_widget.py:25-32 | an empty list raises "no times provided", any triple (the last included) with start >= end raises "start time must be < end time", and the triples are accepted unchanged exactly otherwise |
| RoomEditing.EditorBracketsAcceptedByModel | Views/room_editing_widget.py:25-32 | whatever the editor accepts the building model's bracketed value also accepts, with the same triples |
| RoomEditing.EditorStricterOnLastBracket | Views/room_editing_widget.py:29-31 | a last triple ending before it starts passes the building model's check but not the editor's |
| RoomEditing.RoomComposition.constructor | Views/room_editing_widget.py:37-48 | a new composition has every one of the ten materials at 0 and other at 100 |
| RoomEditing.Remainder | Views/room_editing_widget.py:198 | other is never negative, makes the total up to 100 when the materials sum to at most 100, and is 0 when they reach 100 |
| RoomEditing.CompositionEditor.constructor | Views/room_editing_widget.py:139-167 | each spin box shows the record's value for its material |
| RoomEditing.CompositionEditor.SetSpin | Views/room_editing_widget.py:162-200 | the changed box takes the value clamped to [0, 100], and the record then holds every box's value and other as the remainder of their sum |
| RoomEditing.CompositionEditor.OnValueChanged | Views/room_editing_widget.py:189-200 | the record holds every spin box's value and other is the remainder of their sum |
| RoomEditing.CompositionCompletes | Views/room_editing_widget.py:189-200 | the composition written is never below 100 in total, exactly 100 while the ten materials leave room, and other is never negative |
| RoomEditing.Insert | Views/room_editing_widget.py:254 | inserting adds exactly one copy of the pair, keeping all others |
| RoomEditing.InsertSorted | Views/room_editing_widget.py:254 | inserting into a sorted list keeps it sorted and adds only the new pair |
| RoomEditing.SortPairs | Views/room_editing_widget.py:254 | the result is sorted in Python's tuple order and is a permutation of the input |
| RoomEditing.SortedFailsOnlyOnRepeat | Views/room_editing_widget.py:16-18 | sorted rows fail the ordering check exactly when two neighbours share a time |
| RoomEditing.SortedRowsRejectedOnlyForRepeat | Views/room_editing_widget.py:245-258 | after sorting, non-empty rows are rejected exactly when two of them share a time |
| RoomEditing.TimeValueEditor.constructor | Views/room_editing_widget.py:212-232 | a new editor is collapsed with no rows |
| RoomEditing.TimeValueEditor.AddRow | Views/room_editing_widget.py:234-238 | exactly one row reading (0.0, 0.0) is appended |
| RoomEditing.TimeValueEditor.RemoveRow | Views/room_editing_widget.py:240-243 | the current row is removed and the others keep their order; with no current row nothing changes |
| RoomEditing.TimeValueEditor.GetValue | Views/room_editing_widget.py:245-258 | collapsed gives None, a non-numeric cell gives None, and otherwise the result is the rows read and sorted exactly when these pass validation |
| RoomEditing.RowsRead | Views/room_editing_widget.py:250-253 | the rows read succeed exactly when every cell is a number, giving one pair per row in order |
| RoomEditing.BracketedValueEditor.constructor | Views/room_editing_widget.py:264-284 | a new editor is collapsed with no rows |
| RoomEditing.BracketedValueEditor.AddRow | Views/room_editing_widget.py:286-291 | exactly one row reading (0.0, 1.0, 10.0) is appended |
| RoomEditing.BracketedValueEditor.RemoveRow | Views/room_editing_widget.py:293-296 | the current row is removed and the others keep their order; with no current row nothing changes |
| RoomEditing.BracketedValueEditor.GetValue | Views/room_editing_widget.py:298-311 | collapsed gives None; otherwise the result is the triples read, in the order entered without sorting, exactly when every cell is a number and they pass validation; this is the value `BracketValue` gives for the editor's state |
| RoomEditing.BracketedValueEditor.Load | Views/room_editing_widget.py:400-405 | after the refill the table shows exactly the given triples, one row each, in order |
| RoomEditing.TriplesRead | Views/room_editing_widget.py:303-307 | the rows read succeed exactly when every cell is a number, giving one triple per row in order |
| RoomEditing.TableOf | Views/room_editing_widget.py:401-405 | the table filled from a list of triples has one row per triple whose three cells hold its numbers |
| RoomEditing.TableReadsBack | Views/room_editing_widget.py:303-307 | reading a table filled from a list of triples gives back that list |
| RoomEditing.OnBracketedChanged | Views/room_editing_widget.py:412-421 | when checked with a current species, a value read from the table replaces that species' emission; every other emission, the list and the editor are unchanged, and the list keeps showing each key once |
| RoomEditing.OnSetChecked | Views/room_editing_widget.py:119-121 | the editor ends in the requested state; only a change of state runs `bracketed_changed`, so an expanded editor, or a collapse, leaves the emissions alone |
| RoomEditing.OnSpeciesChanged | Views/room_editing_widget.py:387-410 | with a current species the editor ends expanded and enabled, showing that species' emission as it was before the handler ran and labelled with its name; with none it ends collapsed and disabled under the prompt with the emissions unchanged |
| RoomEditing.SelectWritesOnlyCurrent | Views/room_editing_widget.py:387-421 | selecting a species changes no other species' emission |
| RoomEditing.SelectExpandedKeepsEmissions | Views/room_editing_widget.py:387-410 | with the editor already expanded, selecting a species changes no emission |
| RoomEditing.OnSetCurrentRow | Views/room_editing_widget.py:362 | the requested row becomes current, `species_changed` running only when it differs, and the list keeps showing each key once |
| RoomEditing.OnAddSpecies | Views/room_editing_widget.py:365-373 | a cancelled, empty or existing name changes nothing; a new name joins the end of the list as the current row, the editor ends expanded showing the default emission, and every old emission is kept |
| RoomEditing.AddedSpeciesDefault | Views/room_editing_widget.py:365-373 | a new species keeps the default emission [(0, 1, 0)] when the editor was expanded or its table does not read as a valid value |
| RoomEditing.RowAfterTake | Views/room_editing_widget.py:382 | taking the current row leaves a valid row current, and no row only when the list is empty |
| RoomEditing.TakeSelectsNeighbour | Views/room_editing_widget.py:382 | after `takeItem` the species below the taken row becomes current, or the one above when the last row was taken, or none when it was the only row |
| RoomEditing.OnRemoveSpecies | Views/room_editing_widget.py:375-385 | with a current row and confirmation that species leaves the dictionary and its row the list, the row `takeItem` leaves (the one below, else above) is current, and the editor ends collapsed and disabled under the prompt; otherwise nothing changes |
| RoomEditing.RemovedRow | Views/room_editing_widget.py:382 | taking a row out of a list without repeats leaves exactly the other entries, still without repeats |
| RoomEditing.RemoveExpandedDropsOne | Views/room_editing_widget.py:375-385 | removing the current species while the editor is expanded takes out its emission and changes no other |
| RoomEditing.AddedFacts | Views/room_editing_widget.py:365-373 | after adding a new species it is the current last row, the editor is expanded, and without it the dictionary and list are as before |
| RoomEditing.AddedKeys | Views/room_editing_widget.py:370 | the dictionary after an addition is the old one plus the new key |
| RoomEditing.CollapsedSelectOverwrites | Views/room_editing_widget.py:397-405 | as written, selecting another species while the editor is collapsed and its table reads as a valid value gives that species the table's value, while the table is refilled with its old emission |
| RoomEditing.CollapsedSelectWrites | Views/room_editing_widget.py:397-421 | `species_changed` with the editor collapsed and a table that reads as a value gives the current species that value |
| RoomEditing.RemoveMiddleWritesBelow | Views/room_editing_widget.py:375-421 | removing B from A, B, C with the editor collapsed makes C current and writes the table still shown, B's emission, into C, while A keeps its own |
| RoomEditing.RemoveThenSelectLosesEmission | Views/room_editing_widget.py:375-421 | editing A, removing it, then clicking C gives C the emission of B |
| RoomEditing.OnSpeciesChangedIntended | Views/room_editing_widget.py:387-410 | the intended handler: with a current species the editor ends expanded and enabled, showing that species' emission |
| RoomEditing.IntendedSelectKeepsEmissions | Views/room_editing_widget.py:387-421 | selecting a species with the intended handler changes no emission |
| RoomEditing.EmissionsEditor.constructor | Views/room_editing_widget.py:319-363 | the list shows each key of the dictionary exactly once, in dictionary order, with no current row and the editor collapsed and disabled under the prompt |
| RoomEditing.EmissionsEditor.BracketedChanged | Views/room_editing_widget.py:412-421 | the new state is `OnBracketedChanged` of the old |
| RoomEditing.EmissionsEditor.SetChecked | Views/room_editing_widget.py:119-121 | the new state is `OnSetChecked` of the old |
| RoomEditing.EmissionsEditor.SpeciesChanged | Views/room_editing_widget.py:387-410 | the new state is `OnSpeciesChanged` of the old |
| RoomEditing.EmissionsEditor.SetCurrentRow | Views/room_editing_widget.py:362 | the new state is `OnSetCurrentRow` of the old |
| RoomEditing.EmissionsEditor.AddSpecies | Views/room_editing_widget.py:365-373 | the new state is `OnAddSpecies` of the old, and the list keeps showing each key once |
| RoomEditing.EmissionsEditor.RemoveSpecies | Views/room_editing_widget.py:375-385 | the new state is `OnRemoveSpecies` of the old, and the list keeps showing each key once |
| RoomEditing.AddThenRemove | Views/room_editing_widget.py:365-385 | adding a new species and then removing it gives back the dictionary and list it started from |
| LinkEditor.Without | UI/Frontend/pane_script2.js:312 | the filtered list holds exactly the other entries, never the removed one, and is the same list when the entry was absent |
| LinkEditor.WithoutSingle | UI/Frontend/pane_script2.js:147 | filtering out an entry that occurs once cuts exactly that position and keeps the others in order |
| LinkEditor.WithoutDistinct | UI/Frontend/pane_script2.js:147 | filtering keeps a list without repeats free of repeats |
| LinkEditor.RemoveFirst | UI/Frontend/pane_script2.js:316 | removing an element leaves the list unchanged when no entry equals it, and otherwise shortens it by one |
| LinkEditor.RemoveFirstCount | UI/Frontend/pane_script2.js:316 | exactly one entry equal to the element leaves, when there is one, and every other entry stays as often as before |
| LinkEditor.RemoveFirstKeeps | UI/Frontend/pane_script2.js:316 | removing an element adds nothing to the list and keeps every entry not equal to it |
| LinkEditor.RemoveFirstAt | UI/Frontend/pane_script2.js:316 | the entry removed is the first equal one; the entries before and after it stay in place |
| LinkEditor.RemoveFirstDistinct | UI/Frontend/pane_script2.js:316 | on a canvas whose ids are distinct, removing a square's element and filtering the square out agree |
| LinkEditor.Ids | UI/Frontend/pane_script2.js:168 | one id per selected room, in selection order |
| LinkEditor.RegisterApertures | UI/Frontend/pane_script2.js:446-451 | the loaded aperture table has an entry for exactly the earlier entries and the aperture items |
| LinkEditor.RegisterData | UI/Frontend/pane_script2.js:444 | the loaded data table has an entry for exactly the earlier entries and the items' ids |
| LinkEditor.RegisteredEntry | UI/Frontend/pane_script2.js:446-451 | with distinct ids each aperture item's entry is its own connected rooms, or [] when the item has none |
| LinkEditor.UntouchedEntry | UI/Frontend/pane_script2.js:446-451 | items with other ids leave an aperture entry as it was |
| LinkEditor.RegisteredData | UI/Frontend/pane_script2.js:444 | with distinct ids each item's data entry is its own data |
| LinkEditor.UntouchedData | UI/Frontend/pane_script2.js:444 | items with other ids leave a data entry as it was |
| LinkEditor.SaveLayout | UI/Frontend/pane_script2.js:328-359 | one saved entry per square, in canvas order, each carrying its square |
| LinkEditor.SaveThenLoad | UI/Frontend/pane_script2.js:328-452 | loading a saved layout with distinct ids gives back the canvas, one aperture entry per aperture on it with its connected rooms ([] if unregistered), and each square's data entry |
| LinkEditor.SaveThenLoadRestoresApertures | UI/Frontend/pane_script2.js:328-452 | when the aperture table has exactly the canvas's apertures, save then load restores it exactly |
| LinkEditor.SaveThenLoadRestoresData | UI/Frontend/pane_script2.js:328-452 | when the data table has exactly the canvas's squares, save then load restores it exactly |
| LinkEditor.DeleteKeepsLinks | UI/Frontend/pane_script2.js:302-320 | deleting one square keeps ids distinct and every link pointing at a room still on the canvas |
| LinkEditor.DistinctAfterWithout | UI/Frontend/pane_script2.js:316 | removing a square from a canvas with distinct ids keeps the ids distinct |
| LinkEditor.Pane.constructor | UI/Frontend/pane_script2.js:4-19 | the page starts with an empty canvas and tables, nothing selected, link mode off and the room counter at 1 |
| LinkEditor.Pane.ClickSquare | UI/Frontend/pane_script2.js:59-73 | outside link mode the square is selected; in link mode a room toggles its place in the selection and a registered aperture takes the selected room ids, clearing selection and link mode; the selection stays at most two distinct rooms |
| LinkEditor.Pane.ClickBackground | UI/Frontend/pane_script2.js:268-283 | a click outside every square leaves nothing selected |
| LinkEditor.Pane.EditData | UI/Frontend/pane_script2.js:123-141 | with a square selected, valid data replaces exactly that square's entry; invalid text or no selection leaves the table unchanged |
| LinkEditor.Pane.SelectSquare | UI/Frontend/pane_script2.js:99-102 | the square becomes the selected one |
| LinkEditor.Pane.AddSquare | UI/Frontend/pane_script2.js:33-96 | the square joins the canvas and is selected; a room is labelled "Room k" from the counter, which advances; an aperture is registered with no connected rooms; its data entry is set |
| LinkEditor.Pane.ToggleRoomSelection | UI/Frontend/pane_script2.js:144-155 | non-rooms are ignored, a selected room leaves the selection, a new room joins only while fewer than two are selected, and the selection stays at most two distinct rooms |
| LinkEditor.Pane.EnterLinkMode | UI/Frontend/pane_script2.js:157-161 | link mode is on and the selection is empty |
| LinkEditor.Pane.LinkRoomsToAperture | UI/Frontend/pane_script2.js:163-178 | a registered aperture connects exactly the selected room ids in order and selection and link mode are cleared; an unknown aperture changes nothing; links stay on the canvas |
| LinkEditor.Pane.RemoveFromCanvas | UI/Frontend/pane_script2.js:316 | exactly one entry equal to the square leaves the canvas, the first one; the entries before and after it keep their order and an equal square elsewhere stays |
| LinkEditor.Pane.ForgetRoom | UI/Frontend/pane_script2.js:311-313 | the room id leaves every aperture's list, other ids keep their order, and no aperture is added or removed |
| LinkEditor.Pane.DeleteSelected | UI/Frontend/pane_script2.js:302-320 | an aperture leaves the table; a room's id leaves every aperture's list; one entry of the square leaves the canvas and nothing is selected; links stay on the canvas; data and the link selection are left as they were |
| LinkEditor.Pane.DeleteSelectedIntended | UI/Frontend/pane_script2.js:302-320 | as DeleteSelected, and a deleted room also leaves the link selection, so the selection stays well formed and on the canvas |
| LinkEditor.Pane.DropFromSelection | UI/Frontend/pane_script2.js:302-320 | the deleted square leaves the link selection; a well-formed selection stays well formed, and one that was on the canvas stays on it once only that square's entry has left |
| LinkEditor.Pane.LoadLayout | UI/Frontend/pane_script2.js:389-455 | the canvas, aperture table and data table are rebuilt from the items in order and nothing is selected |
| LinkEditor.LinkModeWithRoomSelected | UI/Frontend/pane_script2.js:144-161 | adding a room and an aperture, entering link mode and clicking the room gives the state of the deletion example |
| LinkEditor.DeleteThenLinkDangles | UI/Frontend/pane_script2.js:302-320 | deleting a selected room in link mode and then clicking an aperture links the aperture to the deleted room |
| LinkEditor.DeleteThenLinkIntended | UI/Frontend/pane_script2.js:302-320 | with the intended deletion the same clicks leave the aperture unlinked and all links on the canvas |
| TimeDependent.InOrderFrom | multiroom_model/time_dep_value.py:19-22 | the validation loop accepts exactly when every adjacent pair from the given index on has strictly increasing times |
| TimeDependent.Make | multiroom_model/time_dep_value.py:13-25 | an empty list fails with "no times provided", a non-increasing pair with "times were not in order"; otherwise the samples and the continuity flag are stored unchanged |
| TimeDependent.Times | multiroom_model/time_dep_value.py:27-28 | one time per stored sample, in order |
| TimeDependent.Values | multiroom_model/time_dep_value.py:30-31 | one value per stored sample, in order |
| TimeDependent.ExactIndex | multiroom_model/time_dep_value.py:45-48 | the first sample whose time equals `t`, or none when no sample has that time |
| TimeDependent.BracketIndex | multiroom_model/time_dep_value.py:50-55 | the first interval of consecutive samples that encloses `t`, or none when no interval does |
| TimeDependent.ValueAtTime | multiroom_model/time_dep_value.py:33-43 | a time before the first sample fails with "Time is too early", one after the last with "Time is too late" |
| TimeDependent.ExactTimeReturnsSample | multiroom_model/time_dep_value.py:45-48 | every sample time of a valid value reads back its own stored value |
| TimeDependent.TimesStrictlyOrdered | multiroom_model/time_dep_value.py:19-22 | adjacent strict increase makes the times strictly increase across any two indices |
| TimeDependent.BetweenSamples | multiroom_model/time_dep_value.py:50-61 | strictly between two consecutive samples, a continuous value interpolates linearly and a step value returns the left sample's value |
| TimeDependent.InterpolationBounded | multiroom_model/time_dep_value.py:56-58 | the interpolated value lies between the two sample values |
| TimeDependent.InRangeAlwaysAnswered | multiroom_model/time_dep_value.py:37-63 | for a validly constructed value, every time within the sampled range gets an answer; "Invalid time" is unreachable |
| TimeDependent.LastAtOrBefore | multiroom_model/time_dep_value.py:50-55 | inside the range and before the last sample, some pair of consecutive samples encloses the time |
| TimeDependent.HalfwayExample | multiroom_model_tests/test_time_dependent_variable.py:26-27 | samples at 0, 1, 2, 3 holding 0, 10, 20, 30 read 5 at t = 0.5 when continuous and 0 when stepwise |
| Bracketed.CheckedFrom | multiroom_model/bracketed_value.py:18-21 | the validation loop accepts exactly when every triple before the last has start before end |
| Bracketed.Make | multiroom_model/bracketed_value.py:12-23 | an empty list fails with "no times provided", an out-of-order triple other than the last with "times were not in order"; otherwise the triples are stored unchanged |
| Bracketed.Values | multiroom_model/bracketed_value.py:40-41 | the stored triples, unchanged |
| Bracketed.FirstContaining | multiroom_model/bracketed_value.py:30-35 | the first searched bracket whose closed interval holds `t`, or none when no searched bracket does |
| Bracketed.FirstMatchWins | multiroom_model/bracketed_value.py:25-35 | the first consulted bracket that contains the time supplies the value |
| Bracketed.OutsideReadsZero | multiroom_model/bracketed_value.py:37-38 | a time outside every consulted bracket reads 0 |
| Bracketed.SingleBracketReadsZero | multiroom_model/bracketed_value.py:31 | the last bracket is never consulted, so a single-bracket value reads 0 everywhere |
| Bracketed.SingleBracketCounterexample | multiroom_model/bracketed_value.py:19-31 | `[(0, 3600, 10)]` is accepted and reads 0 at t = 100, inside its only bracket |
| Bracketed.MakeChecked | multiroom_model/bracketed_value.py:12-23 | the intended constructor: accepts exactly the non-empty lists in which every triple, the last included, has start before end |
| Bracketed.AllBracketsLookup | multiroom_model/bracketed_value.py:25-38 | the intended lookup returns the value of the first bracket that contains the time, at any position, and 0 when none does |
| Bracketed.LookupsDifferOnlyInLastBracket | multiroom_model/bracketed_value.py:30-38 | when the last bracket does not contain the time, the lookup as written and the intended lookup agree |
| Surfaces.Percentages | multiroom_model/surface_composition.py:69-81 | eleven percentages in dictionary-key order, from `soft` to `other` |
| Surfaces.SumOfPercentages | multiroom_model/surface_composition.py:52 | the percentages in key order add up to the sum of the eleven fields |
| Surfaces.SurfaceAreaDictionary | multiroom_model/surface_composition.py:63-81 | one entry per material key, in key order, holding `T * percentage / 100` |
| Surfaces.Areas | multiroom_model/surface_composition.py:52 | the values of the dictionary, in key order |
| Surfaces.ResolveOther | multiroom_model/surface_composition.py:47-50 | `other` is never negative; a given non-negative `other` is kept; a computed `other` brings the total to at least 100, and to exactly 100 when the ten materials sum to at most 100 |
| Surfaces.FirstOutOfRange | multiroom_model/surface_composition.py:58-61 | the first entry in key order whose value lies outside [0, 100], or none exactly when every entry is in range |
| Surfaces.Make | multiroom_model/surface_composition.py:25-61 | construction succeeds exactly when the total is within 1e-12 of 100 and every percentage lies in [0, 100], and then stores the resolved composition |
| Surfaces.HundredDictionary | multiroom_model/surface_composition.py:52-59 | at a total area of 100 the dictionary holds the percentages themselves, and its values sum to their total |
| Surfaces.ScaledSum | multiroom_model/surface_composition.py:63-81 | scaling every percentage by `T / 100` scales their sum the same way |
| Surfaces.DictionarySumsToTotal | multiroom_model/surface_composition.py:52-56 | for an accepted composition the areas sum to `T`, within the 1e-12 percentage tolerance |
| Surfaces.DefaultConstruction | multiroom_model_tests/test_room_composition.py:7-10 | with no arguments every material is 0 and `other` is 100 |
| Surfaces.RejectedCompositions | multiroom_model_tests/test_room_composition.py:26-39 | totals of 120 and of 70 with a given `other`, a negative material, and a material above 100 are all rejected |
| Surfaces.ComputedOtherCompletes | multiroom_model/surface_composition.py:10-47 | ten materials in [0, 100] that sum to at most 100 always construct when `other` is left undefined |
| Surfaces.PercentagesInRange | multiroom_model/surface_composition.py:58-61 | eleven fields in [0, 100] give eleven in-range percentages |
| TransportPaths.OneEndIsRoom | multiroom_model/transport_paths.py:12-16 | a crossing, reversed or not, always has the aperture's origin room at one of its ends |
| TransportPaths.InNodeSet | multiroom_model/transport_paths.py:50-56 | the graph's nodes are the four outsides and the listed rooms, nothing else |
| TransportPaths.IncidentEdges | multiroom_model/transport_paths.py:58-62 | a node's edges are exactly the forward crossings of the apertures leaving it and the reversed crossings of those entering it |
| TransportPaths.Graph | multiroom_model/transport_paths.py:52-62 | the graph has one entry per node; when every aperture's ends are nodes, each edge leaves its own node and enters a node |
| TransportPaths.GraphClosed | multiroom_model/transport_paths.py:58-62 | when every aperture's ends are nodes, every edge of the built graph stays inside the graph |
| TransportPaths.EdgeClosed | multiroom_model/transport_paths.py:59-62 | an edge at a node leaves from that node through its crossing and enters a node |
| TransportPaths.BuildGraph | multiroom_model/transport_paths.py:52-62 | the build succeeds exactly when every aperture's origin and destination are nodes, giving the graph; otherwise it fails with KeyError |
| TransportPaths.AddAperture | multiroom_model/transport_paths.py:58-62 | one pass appends a forward edge at the origin and a reversed edge at the destination, leaving the node set alone |
| TransportPaths.Descend | multiroom_model/transport_paths.py:71-77 | each recursive call of the search visits fewer unvisited places, or the same room once more through an aperture joining it to itself, so the search ends |
| TransportPaths.Prepend | multiroom_model/transport_paths.py:73 | each route below gains the current crossing at its front |
| TransportPaths.Extend | multiroom_model/transport_paths.py:71-77 | one step of the search keeps a found route a simple chain |
| TransportPaths.RoutesShape | multiroom_model/transport_paths.py:70-77 | every route found runs as a chain of crossings from the current node to the final node, never through a visited place |
| TransportPaths.ExploreShape | multiroom_model/transport_paths.py:72-77 | every route found by the loop over the current node's edges is such a chain |
| TransportPaths.Between | multiroom_model/transport_paths.py:66-85 | every path found between two outsides starts at the first and ends at the second |
| TransportPaths.PathsThroughBuilding | multiroom_model/transport_paths.py:30-95 | succeeds exactly when every aperture's ends are nodes, and returns the paths of the six outside pairs in the order `combinations` yields them |
| TransportPaths.PathsWellRouted | multiroom_model/transport_paths.py:31-35 | every path of the outside pairs joins two outsides in `outsides` order, through rooms only, each room entered once |
| TransportPaths.BetweenWellRouted | multiroom_model/transport_paths.py:79-85 | with the outsides already visited, no route between one outside pair leaves the building and comes back in |
| TransportPaths.RouteThroughRooms | multiroom_model/transport_paths.py:79-81 | a route between two outsides crosses at least two apertures, and every place between them is a room |
| TransportPaths.BuildingPathsWellRouted | multiroom_model/transport_paths.py:31-35 | every path `paths_through_building` returns runs outside to outside, with no path and its reversal both present, through rooms entered once each |
| TransportPaths.CrossesPrepend | multiroom_model/transport_paths.py:72-77 | a route extended by one edge of the current node still crosses only graph edges |
| TransportPaths.Shorten | multiroom_model/transport_paths.py:71-77 | the tail of a simple chain, after its first step, is a simple chain for the recursive search with the current node added to the visited list |
| TransportPaths.RoutesComplete | multiroom_model/transport_paths.py:70-77 | every simple chain of graph edges from the current node to the final node is among the routes the search finds: the depth-first search misses nothing |
| TransportPaths.ExploreComplete | multiroom_model/transport_paths.py:72-77 | the loop over the current node's edges from position i finds every such chain whose first edge is at position i or later |
| TransportPaths.InPathsOfPairs | multiroom_model/transport_paths.py:92-94 | a path found for one outside pair stays in the collected list as later pairs are added |
| TransportPaths.CrossesApertures | multiroom_model/transport_paths.py:58-63 | the graph's edges are exactly the apertures crossed forwards from the origin or backwards from the destination |
| TransportPaths.WellRoutedSimple | multiroom_model/transport_paths.py:79-84 | a path through rooms only, between two outsides, is simple for the search with the outsides visited |
| TransportPaths.PairOf | multiroom_model/transport_paths.py:92 | every ordered pair of outsides (earlier side first) is one of the six `combinations(outsides, 2)` |
| TransportPaths.ThroughNodes | multiroom_model/transport_paths.py:72-77 | each aperture of a chain starting at a node is entered from a node |
| TransportPaths.BuildingPathsSound | multiroom_model/transport_paths.py:30-95 | every returned path is well routed and crosses only apertures of the building |
| TransportPaths.BuildingPathsComplete | multiroom_model/transport_paths.py:30-95 | every well-routed path over the building's apertures is returned |
| TransportPaths.BuildingPathsExactly | multiroom_model/transport_paths.py:30-95 | a path is returned if and only if it runs between two outsides, earlier side first, through rooms entered once each (twice in a row only through an aperture joining a room to itself), crossing only the building's apertures |
| TransportPaths.IncidentAppend | multiroom_model/transport_paths.py:58-62 | adding an aperture appends its forward edge at the origin and then its reversed edge at the destination |
| TransportPaths.OneWindowNoPaths | multiroom_model_tests/test_transport_paths.py:14-22 | a room with a single front window yields no paths |
| TransportPaths.AllPairsEmpty | multiroom_model/transport_paths.py:92-95 | when no outside pair has a route, there are no paths |
| TransportPaths.TwoWindowsOnePath | multiroom_model_tests/test_transport_paths.py:24-40 | a room with a front and a back window yields a single path from front to back: the front window reversed, then the back window forwards |
| TransportPaths.OnlyFrontBack | multiroom_model/transport_paths.py:92-95 | when only the front-to-back pair has routes, the result is exactly their paths |
| ApertureCalculations.ContainsRoom | multiroom_model/aperture_calculations.py:12-19 | true exactly when some aperture of the route has the room as its origin or its destination |
| ApertureCalculations.HasOutdoorAperture | multiroom_model/aperture_calculations.py:33-37 | true exactly when some aperture leads from the room to an outside side |
| ApertureCalculations.DestinationOnlyNotOutdoor | multiroom_model/aperture_calculations.py:37 | a room that is never an aperture's origin has no outdoor aperture, since only the origin is compared |
| ApertureCalculations.OffsetTable | multiroom_model/aperture_calculations.py:45-61 | the offsets cover exactly the twelve ordered pairs of distinct horizontal sides, each within half a turn, and swapping start and end moves the offset by half a turn |
| ApertureCalculations.PathAngle | multiroom_model/aperture_calculations.py:40-65 | an angle exactly for paths between two distinct horizontal sides, equal to the building direction plus a whole number of eighth turns within half a turn; "Invalid direction transition" otherwise |
| ApertureCalculations.BackFrontAngle | multiroom_model/aperture_calculations.py:43-50 | a back-to-front path points along the building direction, and a front-to-back path points the opposite way |
| ApertureCalculations.PathWindspeed | multiroom_model/aperture_calculations.py:68-77 | defined exactly when the path has an angle, and then equal to the wind speed times the cosine of the wind direction minus that angle |
| ApertureCalculations.CrossVentilated | multiroom_model/aperture_calculations.py:22-30 | true only when some path through the room has a wind component beyond the tolerance, false only when every path through it is within the tolerance, and always answered when every path has an angle |
| ApertureCalculations.FlowExchange | multiroom_model/aperture_calculations.py:117-128 | categories 1 to 4 give an exchange flow of 0; every other category raises "unknown category" |
| ApertureCalculations.PositionsFaithful | multiroom_model/aperture_calculations.py:193-203 | one contribution per occurrence of the aperture in the route, each naming its path, carrying that crossing's reversed flag, and placed at `i / (len - 1)`, within [0, 1] |
| ApertureCalculations.LongRoutesContribute | multiroom_model/aperture_calculations.py:202 | routes of at least two apertures never make the position division fail |
| ApertureCalculations.BuildingPathsUsable | multiroom_model/aperture_calculations.py:181-202 | the paths of a building whose apertures all join known places never make the constructor fail, and each path has a wind angle |
| ApertureCalculations.BuildContributions | multiroom_model/aperture_calculations.py:186-204 | the loop over paths builds the contributions of every path in order, or fails with the first path's division error |
| ApertureCalculations.ContributionsAlong | multiroom_model/aperture_calculations.py:193-203 | the inner loop over a route builds that path's contributions in route order |
| ApertureCalculations.ContributionsErrorPersists | multiroom_model/aperture_calculations.py:192-203 | once one path has failed, every later path leaves the same failure |
| ApertureCalculations.ContributionsError | multiroom_model/aperture_calculations.py:202 | the only way building contributions fails is ZeroDivisionError |
| ApertureCalculations.ContributionsPlaced | multiroom_model/aperture_calculations.py:151-202 | every contribution built lies in [0, 1] along its path |
| ApertureCalculations.FlowSign | multiroom_model/aperture_calculations.py:230-232 | the sign is plus or minus one, and negative exactly when exactly one of these holds: the wind blows against the path, or the aperture is crossed reversed |
| ApertureCalculations.DischargeBounds | multiroom_model/aperture_calculations.py:234 | over positions in [0, 1] the discharge coefficient falls from 0.7 at the first aperture to 0.35 at the last |
| ApertureCalculations.FlowAdvection | multiroom_model/aperture_calculations.py:80-114 | a flow exactly when the air density is positive; a zero density raises the float division by zero and a negative one the square root's domain error |
| ApertureCalculations.SignedShare | multiroom_model/aperture_calculations.py:223-242 | one pass of the advection loop yields that contribution's signed share of the flow, or the density error of `flow_advection` |
| ApertureCalculations.ReversedTermNegates | multiroom_model/aperture_calculations.py:231-232 | a share exists exactly when the air density is positive, and crossing the aperture the other way round negates it |
| ApertureCalculations.ApertureCalculation.constructor | multiroom_model/aperture_calculations.py:166-181 | stores the aperture, paths, direction, density, coefficients and contributions; the aperture is outdoor exactly when it leads outside; an end room counts as having an outdoor aperture exactly when one of its apertures leads outside |
| ApertureCalculations.ApertureCalculation.HasAdvectionFlow | multiroom_model/aperture_calculations.py:206-215 | true only when some contribution's path carries wind beyond the tolerance, false only when none does, and an error only when some path has no angle |
| ApertureCalculations.ApertureCalculation.SumErrorPersists | multiroom_model/aperture_calculations.py:222-242 | once a contribution fails, by its path's angle or by the air density, the whole advection sum fails the same way |
| ApertureCalculations.ApertureCalculation.AdvectionSumStep | multiroom_model/aperture_calculations.py:222-242 | the sum over one more contribution exists exactly when the shorter sum does, the new path has an angle and the air density is positive |
| ApertureCalculations.ApertureCalculation.AdvectionSumOk | multiroom_model/aperture_calculations.py:217-244 | the advection sum exists exactly when every path has an angle and, unless there is no contribution, the air density is positive |
| ApertureCalculations.ApertureCalculation.DensityZeroFails | multiroom_model/aperture_calculations.py:108 | with a zero air density and a first path that has an angle, the advection sum fails with the float division by zero |
| ApertureCalculations.ApertureCalculation.AdvectionFlowRate | multiroom_model/aperture_calculations.py:217-244 | the loop adds up the signed shares of all contributions; it succeeds exactly when every path has an angle and the air density is positive or there is no contribution; a zero density with a first path that has an angle raises the float division by zero |
| ApertureCalculations.ApertureCalculation.AdvectionStep | multiroom_model/aperture_calculations.py:222-242 | one pass adds the next contribution's signed share to the running sum, or fails with its path's angle error or the density error |
| ApertureCalculations.ApertureCalculation.ExchangeCategory | multiroom_model/aperture_calculations.py:246-272 | a category in 1 to 4: 1 exactly when either end room is cross-ventilated; otherwise 2 for an outdoor aperture, 3 when an end room has an outdoor aperture, and 4 otherwise |
| ApertureCalculations.ApertureCalculation.ExchangeFlowRate | multiroom_model/aperture_calculations.py:274-279 | defined exactly when the category is, and then 0 |
| ApertureCalculations.ApertureCalculation.TransMatrixContributions | multiroom_model/aperture_calculations.py:281-310 | a failing advection flow fails with its own message, so a zero air density with a first path that has an angle raises the float division by zero; both fluxes are non-negative and at least one is zero; advection beyond the tolerance flows one way only (from 1 to 2 when positive, from 2 to 1 when negative); otherwise the exchange flow goes both ways |
| ApertureCalculations.NewApertureCalculation | multiroom_model/aperture_calculations.py:166-184 | a failed contribution build raises ZeroDivisionError before the coefficient check; coefficients with the first below the second are rejected; otherwise a valid calculation holding the built contributions |
| ApertureFactory.SideNamed | multiroom_model/aperture.py:7-18 | a side exactly for the seven member names of the enum |
| ApertureFactory.RowAperture | multiroom_model/aperture_factory.py:30-43 | a row builds an aperture exactly when its origin is a known room and either its side name is a member or, without a side, its destination is a known room; the aperture leads outside exactly when a side is given and the destination is not a known room |
| ApertureFactory.AperturesOfRows | multiroom_model/aperture_factory.py:26-45 | the rows build exactly when every row does, giving one aperture per row, in row order |
| ApertureFactory.RowErrorPersists | multiroom_model/aperture_factory.py:28-36 | once a row has failed, later rows keep that failure |
| ApertureFactory.BuildApertures | multiroom_model/aperture_factory.py:26-45 | the loop over rows yields the apertures of all rows, or the first row's error |
| ApertureFactory.MirrorsOf | multiroom_model/aperture_factory.py:63-64 | the apertures that run the other way between the same two places, and no others |
| ApertureFactory.OutdoorsAppend | multiroom_model/aperture_factory.py:59 | the outdoor count of two lists joined is the sum of their counts |
| ApertureFactory.RemoveIndoorKeepsOutdoors | multiroom_model/aperture_factory.py:69-70 | removing an indoor aperture leaves the outdoor count unchanged |
| ApertureFactory.SubsequenceOfRemoved | multiroom_model/aperture_factory.py:69-70 | what remains in order after one removal is still in order in the list before it |
| ApertureFactory.DeduplicatedShape | multiroom_model/aperture_factory.py:48-72 | a successful result keeps the input order, keeps every outdoor aperture, and keeps one aperture of each mirrored pair: twice its length is the input length plus the outdoor count |
| ApertureFactory.UnmatchedFails | multiroom_model/aperture_factory.py:63-65 | an indoor aperture first in line without exactly one mirror fails the assertion |
| ApertureFactory.SelfLoopRaises | multiroom_model/aperture_factory.py:63-70 | an aperture from a room to itself is its own mirror, so it is removed twice and the second removal raises ValueError |
| ApertureFactory.TwoRoomsExample | multiroom_model/aperture_factory.py:48-72 | two windows and a doorway given in both directions keep the windows and the doorway's first row |
| ApertureFactory.AfterHead | multiroom_model/aperture_factory.py:60-68 | appending an aperture to the result before the rest equals appending it after |
| ApertureFactory.Deduplicate | multiroom_model/aperture_factory.py:56-72 | the while loop leaves exactly the deduplicated list, or its error |
| ApertureFactory.BuildAperturesFromDoubleDefinition | multiroom_model/aperture_factory.py:48-72 | a row error comes first; otherwise the rows' apertures are deduplicated |
| FlowCalculations.IsExcluded | multiroom_model/aperture_flow_calculations.py:144-152 | the inner pattern loop reports a match exactly when the name matches one of the six in-patterns or is a reserved name |
| FlowCalculations.Filter | multiroom_model/aperture_flow_calculations.py:142-157 | the kept names are exactly those of the input that pass the test, in order |
| FlowCalculations.TransVarsSplit | multiroom_model/aperture_flow_calculations.py:141-159 | the indoor list holds, in order, the names that are not excluded and do not match the outdoor pattern; the outdoor list holds, in order, the names that are not excluded and do match it |
| FlowCalculations.TransVarsPartition | multiroom_model/aperture_flow_calculations.py:144-157 | a name is carried exactly when it is not excluded, lands in one list only, and lands in the outdoor list only when it matches the outdoor pattern |
| FlowCalculations.OutSuffix | multiroom_model/aperture_flow_calculations.py:124-154 | an outdoor name ends in "OUT", or in "OUT" and a line break (which `$` allows); an indoor name without line breaks does not end in "OUT" |
| FlowCalculations.OutdoorMatchSuffix | multiroom_model/aperture_flow_calculations.py:124 | the outdoor pattern matches the names ending in "OUT", allowing one final line break, and every name without line breaks that ends in "OUT" |
| FlowCalculations.GetTransVars | multiroom_model/aperture_flow_calculations.py:99-159 | the loop over all variables builds the indoor and outdoor lists as specified |
| FlowCalculations.Changes | multiroom_model/aperture_flow_calculations.py:45-50 | per variable, what flows in minus what flows out, divided by the volume |
| FlowCalculations.ApertureFlowCalculator.constructor | multiroom_model/aperture_flow_calculations.py:17-18 | the indoor and outdoor lists are those of the variable list |
| FlowCalculations.ApertureFlowCalculator.ConcentrationChanges | multiroom_model/aperture_flow_calculations.py:20-52 | fails with KeyError exactly when a room lacks an indoor variable; otherwise, per indoor variable, room 1 gains the inflow from room 2 minus its own outflow over its volume, and room 2 the reverse |
| FlowCalculations.ApertureFlowCalculator.Conservation | multiroom_model/aperture_flow_calculations.py:49-50 | what leaves one room enters the other: per variable, the two changes times their volumes sum to zero |
| FlowCalculations.ApertureFlowCalculator.OneWayFlow | multiroom_model/aperture_flow_calculations.py:41-50 | with flow from room 1 to room 2 only, room 1 never gains and room 2 never loses |
| FlowCalculations.ApertureFlowCalculator.InflowFeedsPresent | multiroom_model/aperture_flow_calculations.py:80-84 | only variables of the room are fed from outside, each with the room's value of its own "OUT" name |
| FlowCalculations.ApertureFlowCalculator.InflowErrorPersists | multiroom_model/aperture_flow_calculations.py:81-84 | once a missing "OUT" value has failed, later variables keep that failure |
| FlowCalculations.ApertureFlowCalculator.OutdoorChanges | multiroom_model/aperture_flow_calculations.py:87-97 | over the union of the indoor and fed variables, inflow minus outflow over the volume, with a missing side counting as 0 |
| FlowCalculations.ApertureFlowCalculator.OutdoorConcentrationChanges | multiroom_model/aperture_flow_calculations.py:54-97 | KeyError when the room lacks an indoor variable or an "OUT" value it needs; otherwise the change of every indoor and fed variable |
| FlowCalculations.Strip3 | multiroom_model/aperture_flow_calculations.py:82 | `s[:-3]`: the name without its last three characters, and empty for shorter names |
| JsonParser.Get | multiroom_model/json_parser.py:130-141 | `d[key]`: a value exactly when the key is present, and then the value stored under it |
| JsonParser.FloatOf | multiroom_model/json_parser.py:146 | `float(x)` passes numbers through and raises TypeError for null, lists and objects |
| JsonParser.Number | multiroom_model/json_parser.py:79-89 | a material percentage is a number or a boolean; anything else is rejected |
| JsonParser.Source | multiroom_model/json_parser.py:109-120 | a list is its own source; an object must hold "values" (otherwise "... dict must include 'values' key"), which must be a list; anything else fails |
| JsonParser.Either | multiroom_model/json_parser.py:130-141 | the long key's value when present, otherwise the short key's |
| JsonParser.TimeValueItemRules | multiroom_model/json_parser.py:123-148 | a list item must have exactly two entries, an object item needs "time"/"t" and "value"/"v"; the pair is the two floats, and any other item fails |
| JsonParser.Numeric2 | multiroom_model/json_parser.py:145-148 | the pair exists exactly when both conversions succeed |
| JsonParser.CollectFaithful | multiroom_model/json_parser.py:122-149 | the items convert exactly when each item does, one result per item, in order |
| JsonParser.CollectErrorPersists | multiroom_model/json_parser.py:123-148 | once an item has failed, later items keep that failure |
| JsonParser.TimeValuePairsFaithful | multiroom_model/json_parser.py:122-149 | the time-value list converts exactly when every item does, one pair per item, in order |
| JsonParser.PairErrorPersists | multiroom_model/json_parser.py:123-148 | the first failing pair's error is the list's error |
| JsonParser.NormalizeTimeValueList | multiroom_model/json_parser.py:101-149 | the loop over items yields the normalised pairs or the first item's error |
| JsonParser.BracketItemRules | multiroom_model/json_parser.py:173-203 | a list item must have exactly three entries, an object item needs "start"/"s", "end"/"e" and "value"/"v"; the triple is the three floats, and any other item fails |
| JsonParser.Numeric3 | multiroom_model/json_parser.py:200-203 | the triple exists exactly when all three conversions succeed |
| JsonParser.BracketTriplesFaithful | multiroom_model/json_parser.py:172-204 | the bracketed list converts exactly when every item does, one triple per item, in order |
| JsonParser.TripleErrorPersists | multiroom_model/json_parser.py:173-203 | the first failing triple's error is the list's error |
| JsonParser.NormalizeBracketedList | multiroom_model/json_parser.py:151-204 | the loop over items yields the normalised triples or the first item's error |
| JsonParser.MakeTimeDep | multiroom_model/json_parser.py:207-220 | null gives no series; an empty list fails with "Time-dependent values list is empty"; a built series holds the normalised pairs and the wrapper's "continuous" flag, or the default |
| JsonParser.MakeBracketed | multiroom_model/json_parser.py:222-228 | null gives no value; an empty list fails with "Bracketed values list is empty"; a built value holds the normalised triples |
| JsonParser.OptionalSeries | multiroom_model/json_parser.py:231-253 | an absent key leaves the field as it was; null clears it; any other value sets it with that key's continuity flag |
| JsonParser.EmissionsKeys | multiroom_model/json_parser.py:245-247 | the emissions hold one entry per species, in order, under the species name, each the bracketed conversion of its value |
| JsonParser.Emissions | multiroom_model/json_parser.py:241-247 | an absent key leaves emissions as they were; a non-object fails; otherwise emissions are set |
| JsonParser.RequiredFields | multiroom_model/json_parser.py:64-98 | the required fields succeed exactly when the five keys are present, volume and surface area convert with `float`, and the composition is an object that makes a composition; the room then has those floats, `str` of the light and glass types and that composition, with no optional field set; a missing key fails with "Missing required RoomChemistry key: '<key>'" for the first absent key, or an earlier conversion error |
| JsonParser.OptionalsFields | multiroom_model/json_parser.py:230-255 | each optional field is the conversion of its own key, and the required fields stay as they were |
| JsonParser.FromDictRequired | multiroom_model/json_parser.py:63-98 | a room comes only from a document whose required fields convert, and its volume, surface area, light and glass types and composition are those conversions |
| JsonParser.SeriesField | multiroom_model/json_parser.py:207-216 | a series field is set exactly when its key holds a non-null value, with the wrapper's flag or the default |
| JsonParser.FromDictSeries | multiroom_model/json_parser.py:231-253 | temperature, humidity and air change default to continuous; the light switch and people counts default to stepwise |
| JsonParser.FromDictEmissions | multiroom_model/json_parser.py:241-247 | emissions are set exactly when the key is present, and a non-object value fails |
| JsonParser.RoomListKeys | multiroom_model/json_parser.py:290-298 | a list of rooms builds exactly when every entry is an object that builds, giving one room per entry, in order |
| JsonParser.RoomMapKeys | multiroom_model/json_parser.py:306-320 | a mapping of rooms builds exactly when every value is an object that builds, each room under its own key, in order |
| JsonParser.RoomListKeysDistinct | multiroom_model/json_parser.py:297 | rooms from a list get distinct keys |
| JsonParser.RoomListErrorPersists | multiroom_model/json_parser.py:294-297 | the first bad entry of a list decides the error |
| JsonParser.RoomMapErrorPersists | multiroom_model/json_parser.py:308-320 | the first bad value of a mapping decides the error |
| JsonParser.RoomListNext | multiroom_model/json_parser.py:294-297 | one pass: a non-object entry fails with "Each room entry must be an object/dict", an entry that fails to build passes its error on, and otherwise the room is added under the index |
| JsonParser.RoomMapNext | multiroom_model/json_parser.py:308-311 | one pass: a non-object value fails with "Room entry must be a dict", a failing build passes its error on, and otherwise the room is added under its key |
| JsonParser.BuildRoomList | multiroom_model/json_parser.py:290-298 | the loop over a list yields the rooms as specified |
| JsonParser.BuildRoomMap | multiroom_model/json_parser.py:306-312 | the loop over a mapping yields the rooms as specified |
| JsonParser.ParseRoomsFromDict | multiroom_model/json_parser.py:284-321 | a list, a "rooms" list or mapping, or a top-level mapping is parsed as specified; "rooms" of any other kind fails |
| JsonParser.ContinuousOverride | multiroom_model/json_parser.py:211-215 | a wrapper's "continuous" value decides by its truth, and a bare list takes the default |
| JsonParser.EmptySeriesRejected | multiroom_model/json_parser.py:217-227 | an empty list, bare or wrapped, is rejected for series and for bracketed values |
| JsonParser.MissingVolume | multiroom_model/json_parser.py:65-72 | a document without "volume_in_m3" fails with "Missing required RoomChemistry key: 'volume_in_m3'" |
| JsonParser.FirstMissing | multiroom_model/json_parser.py:66-70 | the key the `KeyError` names is one of the five required keys and is absent from the document |
| RoomFactory.FirstDigit | multiroom_model/room_factory.py:75 | the position where the search for a number starts: the first digit, or none when there is no digit |
| RoomFactory.DigitRun | multiroom_model/room_factory.py:75 | the end of the run of digits that starts at a position |
| RoomFactory.DecimalValue | multiroom_model/room_factory.py:77 | `float` of a whole part and a fraction is never negative |
| RoomFactory.ExtractTime | multiroom_model/room_factory.py:74-79 | a header gives a time exactly when it holds a digit, and the time is never negative; otherwise "No time detected in the column" |
| RoomFactory.FirstAt | multiroom_model/room_factory.py:75 | the search starts at the first digit of the header |
| RoomFactory.RunAt | multiroom_model/room_factory.py:75 | the whole part ends where the digits stop |
| RoomFactory.ExtractWholeTime | multiroom_model/room_factory.py:74-77 | a header made of a digit-free prefix, a whole number and a tail that does not continue the number reads back that number |
| RoomFactory.ExtractDecimalTime | multiroom_model/room_factory.py:74-77 | a prefix, a whole part, a point and a fraction read back as that decimal |
| RoomFactory.DecimalHeader | multiroom_model/room_factory.py:75-77 | any header whose first number has a fractional part reads back the whole part plus the fraction |
| RoomFactory.FractionMatch | multiroom_model/room_factory.py:75 | a point followed by a digit joins the fraction to the match |
| RoomFactory.HeaderTimes | multiroom_model/room_factory.py:71-81 | the headers give times exactly when each one does, one per header, in order |
| RoomFactory.NonzeroColumns | multiroom_model/room_factory.py:87-88 | the columns holding a nonzero value, in increasing order, and no others |
| RoomFactory.SpeciesBracketsFaithful | multiroom_model/room_factory.py:84-89 | a row builds exactly when every nonzero value has a next time, one bracket per nonzero column, in column order, from that column's time to the next |
| RoomFactory.EdgeRows | multiroom_model/room_factory.py:88-90 | a nonzero value in the last column runs past the end of the times; an all-zero row builds no bracket, and the bracketed-value constructor then rejects it |
| RoomFactory.ZeroRowBuildsNothing | multiroom_model/room_factory.py:87-89 | a row of zeros builds no bracket |
| RoomFactory.BracketErrorPersists | multiroom_model/room_factory.py:87-89 | once a column has failed, later columns keep that failure |
| RoomFactory.BuildBrackets | multiroom_model/room_factory.py:85-89 | the loop over one row yields its brackets, or the index error |
| RoomFactory.KeyIndex | multiroom_model/room_factory.py:90 | the place of a key in an insertion-ordered dict is its first entry, and there is none exactly when no entry has the key |
| RoomFactory.Lookup | multiroom_model/room_factory.py:90 | `d[k]` is the value of the entry at the key's place, present exactly when the key is |
| RoomFactory.SetEntry | multiroom_model/room_factory.py:90 | assigning to an existing key replaces the value at its first entry and changes nothing else; assigning to a new key appends it |
| RoomFactory.SameKeysSameIndex | multiroom_model/room_factory.py:90 | replacing a value leaves every key at its place |
| RoomFactory.AppendIndex | multiroom_model/room_factory.py:90 | appending a new entry keeps every old key at its place and puts the new key last |
| RoomFactory.LookupSetEntry | multiroom_model/room_factory.py:90 | after `d[k] = v` the key gives `v` and every other key what it gave before, and keys stay distinct |
| RoomFactory.LastIndex | multiroom_model/room_factory.py:84 | the last of the first n rows with a given name, none exactly when no such row exists |
| RoomFactory.KeyedOk | multiroom_model/room_factory.py:84-90 | the table builds exactly when every row does |
| RoomFactory.KeyedFaithful | multiroom_model/room_factory.py:84-90 | with distinct species names, one entry per species, in order, each its own row's value |
| RoomFactory.KeyedLookup | multiroom_model/room_factory.py:84-90 | with names possibly repeated, a built table lists each name once and a name looks up the value of its last row |
| RoomFactory.KeyedErrorPersists | multiroom_model/room_factory.py:84-90 | once a row has failed, later rows keep that failure |
| RoomFactory.RowValue | multiroom_model/room_factory.py:85-90 | a row gives a bracketed value exactly when its brackets build and the constructor accepts them, holding those brackets |
| RoomFactory.EmissionsTableFaithful | multiroom_model/room_factory.py:82-90 | the emissions build exactly when every row does; with distinct species names, one entry per species, in order, each holding that row's brackets |
| RoomFactory.EmissionsLookup | multiroom_model/room_factory.py:82-90 | with species names possibly repeated, each species is listed once and its emission is the bracketed value of its last row |
| RoomFactory.EmissionsErrorPersists | multiroom_model/room_factory.py:84-90 | the first failing species decides the error |
| RoomFactory.TimesErrorPersists | multiroom_model/room_factory.py:81 | the first header without a number decides the error |
| RoomFactory.ReadTimes | multiroom_model/room_factory.py:81 | the loop over the headers yields their times, or the first error |
| RoomFactory.PopulateWithEmissions | multiroom_model/room_factory.py:64-90 | a header without a number fails first; otherwise the room's emissions are replaced by the table built from the rows, or the first row's error is returned |
| RoomFactory.Zip | multiroom_model/room_factory.py:101 | `list(zip(...))`: pairs up to the shorter column, in order |
| RoomFactory.PopulateWithTvar | multiroom_model/room_factory.py:94-104 | succeeds exactly when each of the four columns makes an accepted series; temperature, humidity and air change become continuous series and the light switch a stepwise one, and nothing else changes |
| RoomFactory.PopulateWithExpos | multiroom_model/room_factory.py:107-115 | succeeds exactly when both head-count columns make accepted series, which become stepwise series, and nothing else changes |
| RoomFactory.BetweenRows | multiroom_model/room_factory.py:101-115 | between two rows a stepwise column holds the earlier row's value and a continuous one interpolates |
| LightSchedule.OnIndices | multiroom_model/room_inchempy_evolver.py:12-13 | the switched-on samples among the first n, in increasing order, and no others |
| LightSchedule.OnIntervalsFaithful | multiroom_model/room_inchempy_evolver.py:12-14 | one interval per switched-on sample before the last, in order, running from that sample's time to the next sample's time |
| LightSchedule.LightOnShape | multiroom_model/room_inchempy_evolver.py:8-18 | both versions answer for any non-empty series: the loop's intervals first, then one more exactly when the last value is 1; as written that one ends at the first sample's value plus an hour, in the intended version at its own time plus an hour |
| LightSchedule.LoopIntervalsOrdered | multiroom_model/room_inchempy_evolver.py:12-14 | with strictly increasing times, every interval from the loop starts before it ends |
| LightSchedule.IntervalsOrdered | multiroom_model/room_inchempy_evolver.py:12-16 | the intended function answers every valid series, and every interval it emits starts before it ends, the last one included |
| LightSchedule.LastIntervalCounterexample | multiroom_model/room_inchempy_evolver.py:15-16 | as written, a light off at 0 and on at 3600 gives the empty interval [3600, 3600]; one on at 0 and at 7200 ends its last interval at 3601, before it starts |
| LightSchedule.InterpretLightOnTimes | multiroom_model/room_inchempy_evolver.py:8-18 | the loop builds the intervals of the function as written; the end of integration is accepted and not used |
| SimulationSchedule.SolvedTime | multiroom_model/simulation.py:64 | the solved time is the end time of one of the rooms and no later than any of them |
| SimulationSchedule.AllSolvedTo | multiroom_model/simulation.py:64 | when every room has solved to the same time, the minimum of their end times is that time |
| SimulationSchedule.ApertureResultsIgnored | multiroom_model/simulation.py:116-118 | the aperture results never change the next step's starting frames: each room starts from its own previous result |
| SimulationSchedule.LoopCount | multiroom_model/simulation.py:72 | the number of whole steps the loop takes: each ends no later than the total time, and one more would pass it |
| SimulationSchedule.LoopSteps | multiroom_model/simulation.py:72-90 | one step per pass, each a whole interval starting where the previous one ended |
| SimulationSchedule.LoopStepsExtend | multiroom_model/simulation.py:72-90 | one more pass appends one more whole step |
| SimulationSchedule.ScheduleSteps | multiroom_model/simulation.py:54-112 | the first step runs from t0 for a whole interval; pass i starts at t0 plus i intervals; a final step from the solved time up to the total time follows exactly when time is left |
| SimulationSchedule.LoopStepsWithin | multiroom_model/simulation.py:72 | every step the loop takes is a whole interval ending no later than the total time |
| SimulationSchedule.StepWithin | multiroom_model/simulation.py:72 | the loop's i-th step ends no later than the total time |
| SimulationSchedule.ScheduleShape | multiroom_model/simulation.py:54-112 | the first step runs a whole interval even past the total time; a final step shorter than an interval, ending exactly at the total time, follows exactly when time is left; the last step ends at or after the total time |
| SimulationSchedule.ScheduleChained | multiroom_model/simulation.py:64-108 | each step starts where the previous one ended |
| SimulationSchedule.ScheduleExample | multiroom_model/simulation.py:54-112 | from 0 to 25 in intervals of 3: the first step, seven whole steps and a final step of length 1 |
| SimulationSchedule.ExtendCalls | multiroom_model/simulation.py:82-87 | one more call continues from the room's last frame and appends its own frame to the cumulative result |
| SimulationSchedule.FrameShape | multiroom_model/simulation.py:63-90 | with an evolver that solves, the last frame runs from the last call's start to its end |
| SimulationSchedule.BoundaryRepeated | multiroom_model/simulation.py:85-87 | where one step's frame ends the next one begins, so each boundary time appears twice in a room's cumulative result |
| SimulationSchedule.Evolve | multiroom_model/simulation.py:82-83 | every room evolves over one step from its own previous result, in room order |
| SimulationSchedule.StepInvariant | multiroom_model/simulation.py:74-90 | one step from the previous results keeps each room's result and its cumulative result in line with the calls made |
| SimulationSchedule.LoopExit | multiroom_model/simulation.py:72 | the loop stops after exactly the counted number of passes |
| SimulationSchedule.ScheduleEnds | multiroom_model/simulation.py:92-108 | the calls made, with the optional final step, are the whole schedule |
| SimulationSchedule.MinLast | multiroom_model/simulation.py:64 | the minimum of the rooms' end times exists exactly when there is a room and every room result has a row; no room gives `min`'s empty-sequence error, an empty room result the index error; otherwise the value is one room's end time and no later than any |
| SimulationSchedule.SolvedAtLastEnd | multiroom_model/simulation.py:63-64 | with an evolver that solves, the solved time after any calls is the end of the last call |
| SimulationSchedule.SolvesEndToEnd | multiroom_model/simulation.py:72-90 | with an evolver that solves, each pass of the loop starts where the previous call ended |
| SimulationSchedule.EndToEndSchedule | multiroom_model/simulation.py:72-90 | calls made end to end within the total time are the first step followed by whole loop steps, no more than the counted passes |
| SimulationSchedule.LoopEnd | multiroom_model/simulation.py:72-90 | after the first step and j loop steps the last call ends j + 1 intervals after t0 |
| SimulationSchedule.EndToEndExit | multiroom_model/simulation.py:72 | once a whole interval no longer fits, exactly the counted passes were made and the last one ends where the schedule says |
| SimulationSchedule.LoopCallAt | multiroom_model/simulation.py:72-90 | the loop's first call starts at t0, and its i-th call starts at the solved time of the calls before it, for one interval, ending within the total time |
| SimulationSchedule.SolvesStopsFrom | multiroom_model/simulation.py:72 | with an evolver that solves and a positive interval, the loop stops within the counted passes from wherever it is |
| SimulationSchedule.SolvesStops | multiroom_model/simulation.py:72 | with an evolver that solves and a positive interval, the while loop stops |
| SimulationSchedule.FinalStep | multiroom_model/simulation.py:92-112 | after the loop, one more call from the solved time up to the total time is made exactly when the solved time is short of it, and the results stay in line with the calls |
| SimulationSchedule.SolvesSchedule | multiroom_model/simulation.py:54-112 | with an evolver that solves, a positive interval and at least one room, the calls run makes are the schedule and the final solved time exists |
| SimulationSchedule.EndToEndRun | multiroom_model/simulation.py:72-108 | calls made end to end until a whole interval no longer fits, then one to the total time if time is left, are the schedule |
| SimulationSchedule.Advance | multiroom_model/simulation.py:79-90 | one step for any evolver: every room evolves from its own previous result, the cumulative results grow by the new frames, and the new solved time is the minimum end time of the new results, or its error |
| SimulationSchedule.CallsExtend | multiroom_model/simulation.py:72-90 | after one more pass, the calls made are the first step followed by one more loop step |
| SimulationSchedule.WholeStep | multiroom_model/simulation.py:72-90 | one pass of the while loop, taken when a whole interval still fits after the solved time, calls every evolver from the solved time for one interval and keeps each room's result, the cumulative results and the solved time in line with the calls made |
| SimulationSchedule.WholeSteps | multiroom_model/simulation.py:58-90 | for any evolver with which the loop stops: each pass after the first starts at the solved time of the previous results, and the loop ends when the solved time fails or one more interval would pass the total time |
| SimulationSchedule.FirstStep | multiroom_model/simulation.py:58-68 | after the first step each room's result is its frame from t0, which is also its cumulative result and ends at t0 plus an interval |
| SimulationSchedule.Run | multiroom_model/simulation.py:54-114 | for any evolver with which the loop stops: the calls are the loop's followed by a final step to the total time exactly when the solved time is short of it; the result fails exactly when the last solved time does and otherwise holds each room's frames in order; with no room `min` of nothing fails; with an evolver that solves the calls are the schedule |
| InchemDriver.EventCreator | inchempy/modules/inchem_main.py:548-577 | the first event flag is true exactly when some light interval holds t with its start included and its end excluded; with timed emissions there is one more flag per emission group, in the group's order, true exactly when t lies in that emission's half-open interval; without them the list has one flag |
| InchemDriver.InitialLightState | inchempy/modules/inchem_main.py:948-953 | the initial lighting is on exactly when t0 lies in some light interval with both ends included |
| InchemDriver.InitialTimedFlags | inchempy/modules/inchem_main.py:858-862 | each emission group keeps its name and starts at 1 exactly when t0 lies in its closed interval, otherwise at 0 |
| InchemDriver.InitialStateVersusEvents | inchempy/modules/inchem_main.py:564-566 | a light counted on by the event flags is on in the initial state too, and the two disagree only when t sits exactly on the end of an interval |
| InchemDriver.InitialStateExample | inchempy/modules/inchem_main.py:950 | a light on from 0 to 3600 s makes a run starting at 3600 s begin with the light on although the event flag at that time is off |
| InchemDriver.AVCalc | inchempy/modules/inchem_main.py:579-597 | a zero volume fails with ZeroDivisionError and only then; otherwise the total ratio is the sum of the surface areas over the volume and there is one ratio per surface, in order, keyed "AV" followed by the surface name and worth its area over the volume |
| InchemDriver.AVKeysDistinct | inchempy/modules/inchem_main.py:594-595 | distinct surface names give distinct ratio keys, so no ratio overwrites another |
| InchemDriver.RatiosSumToTotal | inchempy/modules/inchem_main.py:591-595 | the per-surface ratios add up to the total ratio |
| InchemDriver.ToSeconds | inchempy/modules/inchem_main.py:679 | every light interval keeps its position and has both ends multiplied by 3600 |
| InchemDriver.LightEnds | inchempy/modules/inchem_main.py:681-682 | both ends of every light interval appear, in interval order, start before end |
| InchemDriver.DropLast | inchempy/modules/inchem_main.py:687 | a timed input contributes all of its times but the last, and nothing for an empty list |
| InchemDriver.SortedDistinct | inchempy/modules/inchem_main.py:690-692 | the deduplicated sorted list is strictly increasing and holds exactly the candidate values |
| InchemDriver.BisectRight | inchempy/modules/inchem_main.py:694-695 | bisect_right returns a position within the list with every earlier element at most x and the next one, if any, above x |
| InchemDriver.BisectSplits | inchempy/modules/inchem_main.py:694-695 | on a strictly increasing list an element is at most x exactly when it lies before the bisect_right position |
| InchemDriver.WindowFaithful | inchempy/modules/inchem_main.py:694-696 | the slice between the two bisect positions is strictly increasing and holds exactly the elements after t0 and up to t_bound |
| InchemDriver.CleanFaithful | inchempy/modules/inchem_main.py:690-696 | the cleaned candidates are strictly increasing and hold exactly the candidate values after t0 and up to t_bound |
| InchemDriver.CleanEndsAtHi | inchempy/modules/inchem_main.py:695-696 | when t_bound is a candidate above t0, the cleaned list is non-empty and ends with it |
| InchemDriver.EnvelopesIncreasing | inchempy/modules/inchem_main.py:676-696 | the integration envelopes are strictly increasing, so no time is integrated to twice |
| InchemDriver.EnvelopesWithin | inchempy/modules/inchem_main.py:676-696 | every envelope is a candidate time after t0 and no later than t_bound |
| InchemDriver.EnvelopesComplete | inchempy/modules/inchem_main.py:676-696 | every candidate time after t0 and no later than t_bound is an envelope |
| InchemDriver.CandidatesHead | inchempy/modules/inchem_main.py:676-677 | the candidate list begins with t0 and then t_bound |
| InchemDriver.EnvelopesEndAtBound | inchempy/modules/inchem_main.py:670-696 | with a positive time to integrate the envelopes are non-empty and the last one is t_bound, so the run reaches its end |
| InchemDriver.LightSwitchesAreEnvelopes | inchempy/modules/inchem_main.py:679-682 | a light switching on or off, in seconds, after t0 and no later than t_bound is an envelope |
| InchemDriver.IncreasingUnique | inchempy/modules/inchem_main.py:690-692 | two strictly increasing lists with the same elements are equal, so the cleaned envelopes do not depend on the order of the candidates |
| InchemDriver.TimeOfDay | inchempy/modules/inchem_main.py:928 | the time of day of a non-negative time lies in [0, 86400) and that of a negative time in (-86400, 0], as int() truncates toward zero |
| InchemDriver.TimeOfDayPeriodic | inchempy/modules/inchem_main.py:245 | for non-negative times the time of day repeats every 86400 s and equals the time itself during the first day |
| InchemDriver.ShiftTimes | inchempy/modules/inchem_main.py:715 | every entry keeps its value and its time is moved by the offset |
| InchemDriver.ShiftTwice | inchempy/modules/inchem_main.py:715 | moving the times twice is moving them by the sum, and moving by zero changes nothing |
| InchemDriver.Extended | inchempy/modules/inchem_main.py:712-716 | the series after any number of passes is at least as long as the original |
| InchemDriver.ExtendedTail | inchempy/modules/inchem_main.py:714 | after any number of passes the series ends with its original last n entries moved by whole days |
| InchemDriver.ExtendedStep | inchempy/modules/inchem_main.py:714-716 | each pass appends the current last n entries moved one day later |
| InchemDriver.ExtendedKeepsOriginal | inchempy/modules/inchem_main.py:716 | the passes only append: the original series stays in front |
| InchemDriver.ExtendedLast | inchempy/modules/inchem_main.py:712-716 | after j passes the last time is the original last time plus j days |
| InchemDriver.ExtendOnce | inchempy/modules/inchem_main.py:714-716 | one pass of the loop body turns the series after j passes into the series after j + 1 passes, whose last time is j + 1 days after the original last time |
| InchemDriver.ExtendTemperatures | inchempy/modules/inchem_main.py:712-716 | an empty series fails with IndexError; otherwise the result is the series after exactly the number of daily passes its last time needs to reach t0 + seconds_to_integrate |
| InchemDriver.ExtensionReachesTarget | inchempy/modules/inchem_main.py:712 | the extended series ends at or after the target and, when any pass was made, the series one pass shorter ends before it, so the loop makes no extra pass |
| InchemDriver.PrependDayShape | inchempy/modules/inchem_main.py:718-723 | a series starting after t0 gets its first len(temperatures) entries put in front a day earlier, with the series kept behind them; otherwise it is unchanged; a series starting more than a day after t0 still starts after t0 |
| ControlPanel.Panel.BrushFor | Views/test.py:714-726 | a room is painted dark grey when there are no results or no species; with both, a room without a record fails with AttributeError |
| ControlPanel.Panel.constructor | Views/test.py:576-609 | the panel starts on the ironbow gradient with the species list "", O3, CO, no species chosen and the slider at 0, and every room is painted dark grey |
| ControlPanel.Panel.UpdateNodeColors | Views/test.py:706-726 | the recolouring succeeds exactly when every room's brush can be computed, and then every room carries the brush computed for it; on a failure the error is that of the first room whose brush raises, the rooms before it carry their computed brushes and the rooms from it on that are not also earlier in the list keep their old brush; no room's record changes |
| ControlPanel.Panel.AddSpeciesIfNew | Views/test.py:611-616 | a non-empty species not yet in the list is appended to it and otherwise the list is unchanged; after a successful recolouring every room carries its computed brush; on a failure the error is that of the first room whose brush raises, the rooms before it carry their computed brushes and the rooms from it on that are not also earlier in the list keep their old brush |
| ControlPanel.Panel.OnTimeChanged | Views/test.py:618-620 | the slider's time becomes the new value and, after a successful recolouring, every room carries the brush computed for that time; on a failure the error is that of the first room whose brush raises, the rooms before it carry their computed brushes and the rooms from it on that are not also earlier in the list keep their old brush |
| ControlPanel.Panel.SelectGradient | Views/test.py:605 | the chosen gradient becomes current and, after a successful recolouring, every room carries the brush computed with it; on a failure the error is that of the first room whose brush raises, the rooms before it carry their computed brushes and the rooms from it on that are not also earlier in the list keep their old brush |
| ControlPanel.RecolourSucceeds | Views/test.py:714-726 | with results holding non-negative data for the chosen species and every room bound to a record, every room gets a brush and every brush is a valid colour |
| PyOps.Trunc | inchempy/modules/inchem_main.py:928 | int() of a float truncates toward zero: the result is the whole number at or below a non-negative value and at or above a negative one, less than one away |
| PyOps.WrapIndex | Views/model.py:53-54 | indexing a list succeeds exactly for indices from -len to len - 1; a non-negative index is taken as is and a negative one counts from the end |
| PyOps.IndexOf | Views/model.py:33-34 | list.index returns the first position holding the value, and fails exactly when the value is not in the list |
| PyOps.IndexOfDistinct | Views/model.py:33-34 | in a list without repeats the element at position k is found at k, so the saved endpoint index is the node's own position |
| PyOps.RemoveFirst | Views/test.py:228 | list.remove succeeds exactly when the value is in the list and then drops its first occurrence, leaving one element fewer |
| PyOps.RemoveFirstCount | Views/test.py:228-232 | list.remove takes exactly one occurrence of the value out of the list's contents |
| PyOps.RemoveFirstKeeps | Views/test.py:228-232 | list.remove adds nothing: every element left was in the list |
| PyOps.RemoveHead | Views/test.py:228 | removing the value at the head of a list leaves its tail |
| PyOps.NatToString | Views/test.py:328 | a counter prints as a non-empty string of decimal digits with no leading zero |
| PyOps.ParseNatToString | Views/test.py:328 | reading the printed counter back as a number gives the counter |
| PyOps.NatToStringInjective | Views/test.py:328-329 | distinct counters print differently, so the names "Room n" given to new rooms are distinct |
| PyOps.StripLeft | Views/test.py:410 | the left-stripped text is a suffix of the text, everything removed is whitespace in Python's `str.isspace` sense (no-break and Unicode spaces included) and what is left does not start with whitespace |
| PyOps.StripRight | Views/test.py:410 | the right-stripped text is a prefix of the text, everything removed is whitespace in Python's `str.isspace` sense and what is left does not end with whitespace |
| PyOps.Strip | Views/test.py:39 | the stripped text neither starts nor ends with whitespace (Python's `str.isspace` set) and is empty exactly when the text is all whitespace |
| PyOps.TrailingSpaceStripped | Views/test.py:410 | a name that neither starts nor ends with whitespace, typed with one whitespace character after it, strips back to the name |
| PyOps.NoBreakSpaceStripped | Views/test.py:410 | a room renamed to "Kitchen" followed by a no-break space is stored as "Kitchen" |
| RoomChemistryRecord.NewRoom | multiroom_model/room_chemistry.py:28-37 | a new room holds the given volume, surface area, light type, glass type and composition, and every optional series starts absent |
| RoomChemistryRecord.RoomSurfaceAreas | multiroom_model/room_chemistry.py:39-40 | the room's surface area is shared out among the materials in key order, each getting its percentage of the area |
| RoomChemistryRecord.RoomAreasSumToSurfaceArea | multiroom_model/room_chemistry.py:39-40 | for an accepted composition the shares add up to the room's surface area, within the composition's percentage tolerance |
| RealSteps.StepsToReach | inchempy/modules/inchem_main.py:712 | the number of daily steps chosen reaches the target from the start, and one step fewer would not |
| RealSteps.ReachExit | inchempy/modules/inchem_main.py:712 | a loop that stops as soon as the start plus its steps reaches the target has taken exactly the number of steps that reach it |
| PyOps.BlockZero | multiroom_model/room_factory.py:75 | the block of ten Unicode decimal digits that holds a code point, when one does: the code point lies within ten of the block's zero; with none, no remaining block holds it |
| PyOps.DigitValue | multiroom_model/room_factory.py:77 | every character `\d` matches is worth 0 to 9 to `float`, and an ASCII digit is worth its distance from '0' |
| PyOps.ArabicIndicThree | multiroom_model/room_factory.py:75 | `\d` matches digits outside ASCII: ARABIC-INDIC DIGIT THREE is a digit worth 3, while a letter is no digit |

## Left out

- Qt and DOM rendering: painting, `drawBackground`, hover and selection brushes, resize-handle visibility, the legend's drawing calls, SVG line drawing and `getBoundingClientRect` geometry. Only the state these read or write is modelled.
- Dialogs, menus and message boxes: a confirmation is a boolean input, and a dialog's typed text is a string input.
- Views/test.py:64-84 (the file dialog with its JSON and pickle helpers), and the Blob/FileReader I/O of pane_script2.js. A loaded graph or layout is an input, and JSON text decoding in the browser is an `Option` of the decoded value.
- `_rectDistance` and `closestSidePoint` (Views/test.py:503-523): unused by the editor, and they use a square root.
- `setup_times` (Views/test.py:698-704): it only sets a Qt slider's range from float times.
- `Math.random` ids in pane_script2.js: ids are inputs.
- `updateConnections`, line highlighting, dragging and resizing in pane_script2.js: DOM geometry only.
- The editor's room property dialog (`RoomEditor`, its `_load_*` helpers and `apply_changes`) of Views/room_editing_widget.py: widget wiring around the modelled editors. The emissions panel's slots are modelled by `RoomEditing.EmissionsEditor`.
- The error dialogs of Views/room_editing_widget.py (`QMessageBox.critical` in `get_value`, the duplicate-species warning in `add_species`): a rejected value is `None`, and a duplicate name leaves the panel unchanged.
- RoomEditing.RowAfterTake: Qt's item view is not part of this model. After `takeItem` the row made current follows the rule of `QAbstractItemView` for a removed current row: the next row (which moves up into the removed row's place), else the row above, else none.
- The context menus of the connection markers (`EdgeIndicator`, `EdgeIndicatorCircle`), beyond the deletions they trigger.
- Floating point: all arithmetic is on exact reals, so rounding, `inf` and `nan` are not modelled. Text formatting of floats (`:.2f`, `:.4g`) is left out.
- Python's `str()` of a decoded JSON value and `float()` of a string are parameters (`JsonParser.PyText`). `json.loads` is replaced by a decoded-value datatype.
- Duplicate keys in a JSON object: lookup takes the first entry, while `json.loads` keeps the last.
- `pandas.read_csv`, `build_rooms` and `build_wind_definition`: the builders start from already-parsed columns and rows.
- Partial updates on failure: room_factory.py sets `room.emissions = {}` (line 82) before a failing loop, and RoomFactory.PopulateWithTvar (room_factory.py:99-104) and RoomFactory.PopulateWithExpos (room_factory.py:112-115) assign fields before a later conversion can raise. The model returns an error instead of a half-filled room.
- RoomFactory.PopulateWithTvar, RoomFactory.PopulateWithExpos: on failure the room is not returned, so the fields written before the failing conversion are not part of the result.
- `transport_path_windspeed` (a cosine) and `flow_advection` (a square root and a fractional power): parameters of the aperture calculation.
- ApertureCalculations.FlowAdvection gives a zero density the message of a float zero (`0.0` from the global settings); an integer `0`, the constructor's own default, raises "ZeroDivisionError: division by zero" instead. A negative pressure difference raised to the power 0.5 gives a complex number in Python; the magnitude is a real parameter here.
- FlowCalculations.ApertureFlowCalculator.ConcentrationChanges and FlowCalculations.ApertureFlowCalculator.OutdoorConcentrationChanges require non-zero room volumes. pandas would give infinities on a zero volume (aperture_flow_calculations.py:49-50, 95).
- The `Pool`/`starmap` parallelism of `Simulation.run`: rooms are evolved in order. Every room's evolution is independent within a step, so the results agree.
- SimulationSchedule.Run requires `Stops`: the evolver's frames must let the `while` loop end, which holds for every evolver that solves when `t_interval` is positive (SolvesStops). Otherwise the source loops for ever, for example with a zero interval.
- The room evolver (`RoomInchemPyEvolver`, inchem.py), the number-density formula and everything inside the INCHEM-Py solver: the ODE integration, photolysis, humidity, compiled rate evaluation and all file output. The evolver is a parameter, and only the time index of its frames is modelled.
- `timed_import` is not part of this model: the emission groups are an input to the event flags and the initial emission state.
- The asynchronous HTTP service (UI/backend), pane_script.js, Views/graphview.py and run_mbm.py: I/O, concurrency and scripts.
- The Unicode tables behind `\d` (PyOps.IsDecimal) and `str.isspace` (PyOps.IsSpace) are those of Unicode 15.0, as in Python 3.12. Other Python versions add or lack a few characters.
- GraphModel.SimpleGraph.FromDict: a missing key raises `KeyError` in Views/model.py:40-57. The typed input always has every key, so that error is not modelled.
- TransportPaths.PathsThroughBuilding: does not state that no path is listed twice. Duplicate apertures in the input give repeated paths.
- LinkEditor.Pane.RemoveFromCanvas removes the first square equal to the selected one. Squares are values here, so when two squares share an id and a kind the model cannot tell which element was selected. The canvas loses the same entry either way, but equal entries may end up in a different order. On a canvas whose ids are distinct the two agree (RemoveFirstDistinct).
- ViewScene.Editor.DeleteSelectedItems: the graph is only said to lose entries, not exactly which. On a failure part-way through, only consistency of the connection lists is stated.
- ViewScene.Editor.LoadGraph, ViewScene.Editor.LoadGraphIntended: do not state which room connection lists each loaded connection joins, only that all the lists stay consistent.

## Findings

| source | as written | input that shows it | evidently intended | confidence | as-written member | corrected member |
|---|---|---|---|---|---|---|
| multiroom_model/bracketed_value.py:19-31 | the constructor checks start < end for every triple but the last, and `value_at_time` never consults the last bracket | `[(0, 3600, 10)]` is accepted and reads 0 at t = 100 | every triple is checked and every bracket consulted, as the doc comment says | not executed | Bracketed.SingleBracketCounterexample | Bracketed.AllBracketsLookup |
| multiroom_model/room_inchempy_evolver.py:15-16 | a light on at the last sample stays on until the first sample's value plus 3600 | samples (0, 0), (3600, 1) give the empty interval [3600, 3600] | the light stays on for an hour after the last sample's time | not executed | LightSchedule.LastIntervalCounterexample | LightSchedule.IntervalsOrdered |
| Views/test.py:851 | a loaded room gets the rectangle (0, 0, w, h), while a new room has (-75, -15, 150, 30) | saving and loading any room made in the editor | the saved rectangle comes back unchanged | not executed | ViewScene.LoadAsWrittenShifts, ViewScene.Editor.LoadRooms, ViewScene.Editor.LoadGraph | ViewScene.SaveLoadKeepsRect, ViewScene.Editor.LoadRoomsIntended, ViewScene.Editor.LoadGraphIntended |
| Views/test.py:846-848 | a loaded room is labelled from the room counter, not with its saved name | a graph with one room named "Kitchen" loads as "Room 1" | the room shows its saved name | not executed | ViewScene.LoadShowsCounterLabel, ViewScene.Editor.LoadRooms, ViewScene.Editor.LoadGraph | ViewScene.Editor.LoadRoom, ViewScene.Editor.LoadRoomsIntended, ViewScene.Editor.LoadGraphIntended |
| Views/test.py:408-413 | an inline rename changes the room's label but not its graph record | rename a bound room, then save | the record takes the new name, as `Edge.openEditDialog` does for connections | not executed | ViewScene.RenameLeavesRecordStale | ViewItems.NodeItem.FocusOutSynced |
| Views/test.py:278-288 | a right press with two selected rooms reads the scene's nonexistent `model` attribute | select two rooms, right-press on the canvas | the connection and its graph edge are both made | not executed | ViewScene.Editor.PressWithTwoSelected | ViewScene.Editor.PressWithTwoSelectedIntended |
| UI/Frontend/pane_script2.js:302-320 | deleting a room does not drop it from the link-mode selection | in link mode select a room, delete it, then link an aperture | the deleted room leaves the selection too | not executed | LinkEditor.DeleteThenLinkDangles | LinkEditor.DeleteThenLinkIntended |
