/** `paths_through_building`: the building as a graph whose nodes are the rooms
    and the four outside sides and whose edges are the apertures, and the
    depth-first enumeration of the simple routes from one outside side to
    another. */
module TransportPaths {
  import opened Wrappers
  import opened Building

  /** `TransportPathParticipation`: an aperture crossed along a route; reversed
      when the route enters it from its destination side. */
  datatype Participation = Participation(aperture: Aperture, reversed: bool)

  /** `TransportPath`: a route from `start` to `end`, as the apertures crossed. */
  datatype TransportPath = TransportPath(start: Place, end: Place, route: seq<Participation>)

  /** The place a participation is entered from. */
  function From(p: Participation): Place
  {
    if p.reversed then p.aperture.destination else Room(p.aperture.origin)
  }

  /** The place a participation leads into. */
  function Next(p: Participation): Place
  {
    if p.reversed then Room(p.aperture.origin) else p.aperture.destination
  }

  /** One end of an aperture is always its origin room. */
  lemma OneEndIsRoom(p: Participation)
    ensures From(p).Room? || Next(p).Room?
    ensures From(p).Outside? ==> Next(p) == Room(p.aperture.origin)
  {
  }

  /** An entry of a node's `edges` list: the node it leads to and the aperture
      crossed (its `source` is the node owning the list). */
  datatype Edge = Edge(destination: Place, participation: Participation)

  /** `outsides`, in the order the source lists them. */
  const Outsides: seq<Place> := [Outside(Front), Outside(Left), Outside(Back), Outside(Right)]

  /** `combinations(outsides, 2)`: the six (start, end) pairs, start before end. */
  const Pairs: seq<(Place, Place)> :=
    [(Outside(Front), Outside(Left)), (Outside(Front), Outside(Back)), (Outside(Front), Outside(Right)),
     (Outside(Left), Outside(Back)), (Outside(Left), Outside(Right)), (Outside(Back), Outside(Right))]

  /** The nodes of the graph: the four outsides and one per room. */
  function NodeSet(rooms: seq<nat>): set<Place>
  {
    (set p | p in Outsides) + (set r | r in rooms :: Room(r))
  }

  /** The nodes are the four outsides and the listed rooms, nothing else. */
  lemma InNodeSet(rooms: seq<nat>, p: Place)
    ensures p in NodeSet(rooms) <==> p in Outsides || (p.Room? && p.index in rooms)
  {
    if p.Room? && p.index in rooms {
      assert p == Room(p.index);
    }
  }

  /** A place is a node of the graph. */
  predicate IsNode(rooms: seq<nat>, p: Place)
  {
    match p
    case Room(r) => r in rooms
    case Outside(side) => side == Front || side == Left || side == Back || side == Right
  }

  /** `graph[a.origin]` and `graph[a.destination]` both exist. */
  predicate Known(rooms: seq<nat>, a: Aperture)
  {
    a.origin in rooms && IsNode(rooms, a.destination)
  }

  /** The `edges` list of node `p` after the apertures have been added in
      order: an aperture appends a forward edge at its origin, then a reversed
      edge at its destination. */
  function Incident(apertures: seq<Aperture>, p: Place): seq<Edge>
  {
    if |apertures| == 0 then []
    else
      var a := apertures[|apertures| - 1];
      Incident(apertures[..|apertures| - 1], p)
        + (if Room(a.origin) == p then [Edge(a.destination, Participation(a, false))] else [])
        + (if a.destination == p then [Edge(Room(a.origin), Participation(a, true))] else [])
  }

  /** The edges at `p` are exactly the forward crossings of the apertures
      leaving `p` and the reversed crossings of those entering it. */
  lemma {:induction false} IncidentEdges(apertures: seq<Aperture>, p: Place, e: Edge)
    ensures e in Incident(apertures, p) <==>
      exists a :: a in apertures &&
        ((Room(a.origin) == p && e == Edge(a.destination, Participation(a, false))) ||
         (a.destination == p && e == Edge(Room(a.origin), Participation(a, true))))
  {
    if |apertures| > 0 {
      var init := apertures[..|apertures| - 1];
      IncidentEdges(init, p, e);
      assert apertures == init + [apertures[|apertures| - 1]];
    }
  }

  /** Every edge of a node leaves from that node and enters a node of the graph. */
  predicate Closed(g: map<Place, seq<Edge>>)
  {
    forall p, i :: p in g && 0 <= i < |g[p]| ==>
      From(g[p][i].participation) == p && g[p][i].destination == Next(g[p][i].participation) &&
      g[p][i].destination in g
  }

  /** The graph built from the rooms and apertures. */
  function Graph(rooms: seq<nat>, apertures: seq<Aperture>): (g: map<Place, seq<Edge>>)
    ensures g.Keys == NodeSet(rooms)
    ensures (forall i :: 0 <= i < |apertures| ==> Known(rooms, apertures[i])) ==> Closed(g)
  {
    GraphClosed(rooms, apertures);
    map p | p in NodeSet(rooms) :: Incident(apertures, p)
  }

  lemma GraphClosed(rooms: seq<nat>, apertures: seq<Aperture>)
    ensures (forall i :: 0 <= i < |apertures| ==> Known(rooms, apertures[i])) ==>
      Closed(map p | p in NodeSet(rooms) :: Incident(apertures, p))
  {
    var g: map<Place, seq<Edge>> := map p | p in NodeSet(rooms) :: Incident(apertures, p);
    if forall i :: 0 <= i < |apertures| ==> Known(rooms, apertures[i]) {
      forall p, i | p in g && 0 <= i < |g[p]|
        ensures From(g[p][i].participation) == p && g[p][i].destination == Next(g[p][i].participation)
        ensures g[p][i].destination in g
      {
        assert g[p] == Incident(apertures, p);
        EdgeClosed(rooms, apertures, p, g[p][i]);
      }
    }
  }

  /** An edge at `p` leaves from `p` and, when every aperture is known,
      enters a node. */
  lemma EdgeClosed(rooms: seq<nat>, apertures: seq<Aperture>, p: Place, e: Edge)
    requires forall i :: 0 <= i < |apertures| ==> Known(rooms, apertures[i])
    requires e in Incident(apertures, p)
    ensures From(e.participation) == p && e.destination == Next(e.participation)
    ensures e.destination in NodeSet(rooms)
  {
    IncidentEdges(apertures, p, e);
    var a :| a in apertures &&
      ((Room(a.origin) == p && e == Edge(a.destination, Participation(a, false))) ||
       (a.destination == p && e == Edge(Room(a.origin), Participation(a, true))));
    var j :| 0 <= j < |apertures| && apertures[j] == a;
    assert Known(rooms, apertures[j]);
    InNodeSet(rooms, a.destination);
    InNodeSet(rooms, Room(a.origin));
  }

  /** The graph-building loops: a node per outside and per room, then each
      aperture's two edges. An aperture whose origin or destination is not a
      node raises KeyError. */
  method BuildGraph(rooms: seq<nat>, apertures: seq<Aperture>) returns (r: Result<map<Place, seq<Edge>>>)
    ensures r.Ok? <==> forall i :: 0 <= i < |apertures| ==> Known(rooms, apertures[i])
    ensures r.Ok? ==> r.value == Graph(rooms, apertures)
    ensures r.Err? ==> r.msg == "KeyError"
  {
    var g: map<Place, seq<Edge>> := map p | p in NodeSet(rooms) :: [];
    var k := 0;
    while k < |apertures|
      invariant 0 <= k <= |apertures|
      invariant g.Keys == NodeSet(rooms)
      invariant forall i :: 0 <= i < k ==> Known(rooms, apertures[i])
      invariant Built(g, apertures, k)
    {
      var a := apertures[k];
      InNodeSet(rooms, a.destination);
      InNodeSet(rooms, Room(a.origin));
      if Room(a.origin) !in g || a.destination !in g {
        return Err("KeyError");
      }
      assert Known(rooms, apertures[k]);
      g := AddAperture(g, apertures, k);
      assert Built(g, apertures, k + 1);
      assert forall i :: 0 <= i < k + 1 ==> Known(rooms, apertures[i]);
      k := k + 1;
    }
    assert apertures[..k] == apertures;
    assert Built(g, apertures, |apertures|);
    SameGraph(g, rooms, apertures);
    return Ok(g);
  }

  lemma SameGraph(g: map<Place, seq<Edge>>, rooms: seq<nat>, apertures: seq<Aperture>)
    requires g.Keys == NodeSet(rooms) && forall p :: p in g ==> g[p] == Incident(apertures, p)
    ensures g == Graph(rooms, apertures)
  {
  }

  /** Every node's list holds the edges of the first `k` apertures. */
  predicate Built(g: map<Place, seq<Edge>>, apertures: seq<Aperture>, k: nat)
    requires k <= |apertures|
  {
    forall p :: p in g ==> g[p] == Incident(apertures[..k], p)
  }

  /** The two appends for aperture `k`: a forward edge on its origin's list,
      then a reversed edge on its destination's list. */
  method AddAperture(g: map<Place, seq<Edge>>, apertures: seq<Aperture>, k: nat) returns (g': map<Place, seq<Edge>>)
    requires k < |apertures| && Room(apertures[k].origin) in g && apertures[k].destination in g
    requires Built(g, apertures, k)
    ensures g'.Keys == g.Keys
    ensures Built(g', apertures, k + 1)
  {
    var a := apertures[k];
    g' := g[Room(a.origin) := g[Room(a.origin)] + [Edge(a.destination, Participation(a, false))]];
    g' := g'[a.destination := g'[a.destination] + [Edge(Room(a.origin), Participation(a, true))]];
    forall p | p in g'
      ensures g'[p] == Incident(apertures[..k + 1], p)
    {
      assert apertures[..k + 1][..k] == apertures[..k];
    }
  }

  /** The places not yet visited, other than the current one: the search's
      measure. */
  function Unvisited(g: map<Place, seq<Edge>>, visited: seq<Place>, current: Place): nat
  {
    |g.Keys - (set v | v in visited) - {current}|
  }

  /** A descent to an unvisited node either leaves fewer places unvisited, or
      (through an aperture joining a room to itself) stays at a node that was
      not yet visited and is visited afterwards. */
  lemma Descend(g: map<Place, seq<Edge>>, visited: seq<Place>, current: Place, next: Place)
    requires next in g && next !in visited
    ensures Unvisited(g, visited + [current], next) < Unvisited(g, visited, current) ||
      (Unvisited(g, visited + [current], next) == Unvisited(g, visited, current) &&
       next == current && current !in visited && next in visited + [current])
  {
    var before := g.Keys - (set v | v in visited) - {current};
    var after := g.Keys - (set v | v in visited + [current]) - {next};
    if next == current {
      assert after == before;
    } else {
      assert after == before - {next};
    }
  }

  /** `[p] + route` for each route. */
  function Prepend(p: Participation, routes: seq<seq<Participation>>): (r: seq<seq<Participation>>)
    ensures |r| == |routes| && forall k :: 0 <= k < |routes| ==> r[k] == [p] + routes[k]
  {
    seq(|routes|, k requires 0 <= k < |routes| => [p] + routes[k])
  }

  /** `find_all_paths(current, final, visited, [])`: the routes, in discovery
      order, of the search from `current` (the source threads the route so far
      down the recursion; here each level prefixes its own aperture to the
      routes found below it). */
  function Routes(g: map<Place, seq<Edge>>, final: Place, visited: seq<Place>, current: Place): seq<seq<Participation>>
    requires Closed(g) && current in g
    decreases Unvisited(g, visited, current), if current in visited then 0 else 1, 1, 0
  {
    Explore(g, final, visited, current, 0)
  }

  /** The loop over `current.edges` from position `i`: an edge into the final
      node completes a route; an edge into a node outside `visited` is searched
      with `current` added to `visited`; any other edge is skipped. */
  function Explore(g: map<Place, seq<Edge>>, final: Place, visited: seq<Place>, current: Place, i: nat): seq<seq<Participation>>
    requires Closed(g) && current in g && i <= |g[current]|
    decreases Unvisited(g, visited, current), if current in visited then 0 else 1, 0, |g[current]| - i
  {
    if i == |g[current]| then []
    else
      var e := g[current][i];
      var found :=
        if e.destination == final then [[e.participation]]
        else if e.destination !in visited then
          Descend(g, visited, current, e.destination);
          Prepend(e.participation, Routes(g, final, visited + [current], e.destination))
        else [];
      found + Explore(g, final, visited, current, i + 1)
  }

  /** `route` runs from `start` to `final`, each aperture entered from the
      place the previous one led into, and every place it reaches is a node. */
  predicate Chain(route: seq<Participation>, start: Place, final: Place, nodes: set<Place>)
  {
    |route| > 0 && From(route[0]) == start && Next(route[|route| - 1]) == final &&
    (forall i :: 0 <= i < |route| - 1 ==> Next(route[i]) == From(route[i + 1])) &&
    forall i :: 0 <= i < |route| ==> Next(route[i]) in nodes
  }

  /** The places `route` passes through before its end avoid `visited` and
      the final node; after the first they avoid `current`; and a place is
      passed twice only in two consecutive steps (an aperture joining a room
      to itself). */
  predicate Simple(route: seq<Participation>, visited: seq<Place>, current: Place, final: Place)
  {
    (forall i :: 0 <= i < |route| - 1 ==> Next(route[i]) !in visited && Next(route[i]) != final) &&
    (forall i :: 1 <= i < |route| - 1 ==> Next(route[i]) != current) &&
    forall i, j :: 0 <= i < j < |route| - 1 && Next(route[i]) == Next(route[j]) ==> j == i + 1
  }

  /** One step of the search keeps a found route a simple chain. */
  lemma Extend(p: Participation, t: seq<Participation>, visited: seq<Place>, current: Place, final: Place, nodes: set<Place>)
    requires From(p) == current && Next(p) in nodes && Next(p) !in visited && Next(p) != final
    requires Chain(t, Next(p), final, nodes) && Simple(t, visited + [current], Next(p), final)
    ensures Chain([p] + t, current, final, nodes) && Simple([p] + t, visited, current, final)
  {
    var s := [p] + t;
    forall i | 0 <= i < |s| - 1
      ensures Next(s[i]) == From(s[i + 1])
    {
      if i > 0 {
        assert s[i] == t[i - 1] && s[i + 1] == t[i];
      }
    }
    forall i | 0 <= i < |s| - 1
      ensures Next(s[i]) !in visited && Next(s[i]) != final
    {
      if i > 0 {
        assert s[i] == t[i - 1];
      }
    }
    forall i, j | 0 <= i < j < |s| - 1 && Next(s[i]) == Next(s[j])
      ensures j == i + 1
    {
      assert s[j] == t[j - 1];
      if i > 0 {
        assert s[i] == t[i - 1];
      }
    }
  }

  /** Each aperture of `route` is crossed along an edge of `g`: from a node,
      through an entry of that node's `edges` list. */
  predicate Crosses(g: map<Place, seq<Edge>>, route: seq<Participation>)
  {
    forall i :: 0 <= i < |route| ==> From(route[i]) in g && Edge(Next(route[i]), route[i]) in g[From(route[i])]
  }

  /** Crossing one more edge first keeps a route along edges of `g`. */
  lemma CrossesPrepend(g: map<Place, seq<Edge>>, p: Participation, t: seq<Participation>)
    requires From(p) in g && Edge(Next(p), p) in g[From(p)] && Crosses(g, t)
    ensures Crosses(g, [p] + t)
  {
    var s := [p] + t;
    forall i | 0 <= i < |s|
      ensures From(s[i]) in g && Edge(Next(s[i]), s[i]) in g[From(s[i])]
    {
      if i > 0 {
        assert s[i] == t[i - 1];
      }
    }
  }

  /** The converse of `Extend`: the rest of a simple chain after its first
      step is a simple chain for the search one level down. */
  lemma Shorten(s: seq<Participation>, visited: seq<Place>, current: Place, final: Place, nodes: set<Place>)
    requires Chain(s, current, final, nodes) && Simple(s, visited, current, final) && |s| > 1
    ensures Chain(s[1..], Next(s[0]), final, nodes) && Simple(s[1..], visited + [current], Next(s[0]), final)
  {
    var t := s[1..];
    forall i | 0 <= i < |t| - 1
      ensures Next(t[i]) == From(t[i + 1])
    {
      assert t[i] == s[i + 1] && t[i + 1] == s[i + 2];
    }
    forall i | 0 <= i < |t| - 1
      ensures Next(t[i]) !in visited + [current] && Next(t[i]) != final
    {
      assert t[i] == s[i + 1];
    }
    forall i | 1 <= i < |t| - 1
      ensures Next(t[i]) != Next(s[0])
    {
      assert t[i] == s[i + 1];
    }
    forall i, j | 0 <= i < j < |t| - 1 && Next(t[i]) == Next(t[j])
      ensures j == i + 1
    {
      assert t[i] == s[i + 1] && t[j] == s[j + 1];
    }
    assert forall i :: 0 <= i < |t| ==> t[i] == s[i + 1];
  }

  /** Every route the search finds from `current` is a simple chain from
      `current` to `final`. */
  lemma {:induction false} RoutesShape(g: map<Place, seq<Edge>>, final: Place, visited: seq<Place>, current: Place)
    requires Closed(g) && current in g
    ensures forall s :: s in Routes(g, final, visited, current) ==>
      Chain(s, current, final, g.Keys) && Simple(s, visited, current, final) && Crosses(g, s)
    decreases Unvisited(g, visited, current), if current in visited then 0 else 1, 1, 0
  {
    ExploreShape(g, final, visited, current, 0);
  }

  lemma {:induction false} ExploreShape(g: map<Place, seq<Edge>>, final: Place, visited: seq<Place>, current: Place, i: nat)
    requires Closed(g) && current in g && i <= |g[current]|
    ensures forall s :: s in Explore(g, final, visited, current, i) ==>
      Chain(s, current, final, g.Keys) && Simple(s, visited, current, final) && Crosses(g, s)
    decreases Unvisited(g, visited, current), if current in visited then 0 else 1, 0, |g[current]| - i
  {
    if i < |g[current]| {
      var e := g[current][i];
      var rest := Explore(g, final, visited, current, i + 1);
      ExploreShape(g, final, visited, current, i + 1);
      assert e == Edge(Next(e.participation), e.participation) && e in g[current];
      if e.destination == final {
        assert Explore(g, final, visited, current, i) == [[e.participation]] + rest;
        assert Crosses(g, [e.participation]);
      } else if e.destination !in visited {
        Descend(g, visited, current, e.destination);
        var below := Routes(g, final, visited + [current], e.destination);
        var found := Prepend(e.participation, below);
        assert Explore(g, final, visited, current, i) == found + rest;
        RoutesShape(g, final, visited + [current], e.destination);
        forall k | 0 <= k < |below|
          ensures Chain(found[k], current, final, g.Keys) && Simple(found[k], visited, current, final)
          ensures Crosses(g, found[k])
        {
          assert below[k] in below;
          Extend(e.participation, below[k], visited, current, final, g.Keys);
          CrossesPrepend(g, e.participation, below[k]);
        }
      } else {
        assert Explore(g, final, visited, current, i) == [] + rest;
      }
    }
  }

  /** Every simple chain from `current` to `final` along edges of `g` is
      found by the search: the search misses no route. */
  lemma {:induction false} RoutesComplete(g: map<Place, seq<Edge>>, final: Place, visited: seq<Place>, current: Place, s: seq<Participation>)
    requires Closed(g) && current in g
    requires Chain(s, current, final, g.Keys) && Simple(s, visited, current, final) && Crosses(g, s)
    ensures s in Routes(g, final, visited, current)
    decreases Unvisited(g, visited, current), if current in visited then 0 else 1, 1, 0
  {
    var e := Edge(Next(s[0]), s[0]);
    assert e in g[current];
    var j :| 0 <= j < |g[current]| && g[current][j] == e;
    ExploreComplete(g, final, visited, current, 0, j, s);
  }

  /** The loop from position `i` finds a simple chain whose first step is the
      edge at position `j >= i`. */
  lemma {:induction false} ExploreComplete(g: map<Place, seq<Edge>>, final: Place, visited: seq<Place>, current: Place, i: nat, j: nat, s: seq<Participation>)
    requires Closed(g) && current in g && i <= j < |g[current]|
    requires Chain(s, current, final, g.Keys) && Simple(s, visited, current, final) && Crosses(g, s)
    requires g[current][j] == Edge(Next(s[0]), s[0])
    ensures s in Explore(g, final, visited, current, i)
    decreases Unvisited(g, visited, current), if current in visited then 0 else 1, 0, |g[current]| - i
  {
    var e := g[current][i];
    var rest := Explore(g, final, visited, current, i + 1);
    if i < j {
      ExploreComplete(g, final, visited, current, i + 1, j, s);
      assert s in rest;
    } else if e.destination == final {
      assert |s| == 1;
      assert s == [e.participation];
      assert Explore(g, final, visited, current, i) == [[e.participation]] + rest;
    } else {
      assert |s| > 1;
      var next := e.destination;
      assert next !in visited;
      Descend(g, visited, current, next);
      Shorten(s, visited, current, final, g.Keys);
      var t := s[1..];
      assert Crosses(g, t) by {
        forall k | 0 <= k < |t|
          ensures From(t[k]) in g && Edge(Next(t[k]), t[k]) in g[From(t[k])]
        {
          assert t[k] == s[k + 1];
        }
      }
      RoutesComplete(g, final, visited + [current], next, t);
      var below := Routes(g, final, visited + [current], next);
      var found := Prepend(e.participation, below);
      var k :| 0 <= k < |below| && below[k] == t;
      assert s == found[k];
      assert Explore(g, final, visited, current, i) == found + rest;
    }
  }

  /** `all_paths_between(start, end)`: the routes from `start` to `end` with
      the four outsides already visited, so no route re-enters the outdoors. */
  function Between(g: map<Place, seq<Edge>>, pair: (Place, Place)): (r: seq<TransportPath>)
    requires Closed(g) && pair.0 in g
    ensures forall k :: 0 <= k < |r| ==> r[k].start == pair.0 && r[k].end == pair.1
  {
    var routes := Routes(g, pair.1, Outsides, pair.0);
    seq(|routes|, k requires 0 <= k < |routes| => TransportPath(pair.0, pair.1, routes[k]))
  }

  /** The paths of the first `n` outside pairs, pair after pair. */
  function PathsOfPairs(g: map<Place, seq<Edge>>, n: nat): seq<TransportPath>
    requires Closed(g) && n <= |Pairs| && forall k :: 0 <= k < |Pairs| ==> Pairs[k].0 in g
  {
    if n == 0 then [] else PathsOfPairs(g, n - 1) + Between(g, Pairs[n - 1])
  }

  /** `paths_through_building`: build the graph, then collect the paths of
      the six outside pairs in order. */
  method PathsThroughBuilding(rooms: seq<nat>, apertures: seq<Aperture>) returns (r: Result<seq<TransportPath>>)
    ensures r.Ok? <==> forall i :: 0 <= i < |apertures| ==> Known(rooms, apertures[i])
    ensures r.Ok? ==> r.value == PathsOfPairs(Graph(rooms, apertures), |Pairs|)
  {
    var built := BuildGraph(rooms, apertures);
    if built.Err? {
      return Err(built.msg);
    }
    var g := built.value;
    var result: seq<TransportPath> := [];
    for k := 0 to |Pairs|
      invariant result == PathsOfPairs(g, k)
    {
      result := result + Between(g, Pairs[k]);
    }
    return Ok(result);
  }

  /** The index of an outside side in `outsides`. */
  function OutsideRank(p: Place): int
  {
    if p == Outside(Front) then 0
    else if p == Outside(Left) then 1
    else if p == Outside(Back) then 2
    else if p == Outside(Right) then 3
    else -1
  }

  /** What the paths promise: each runs between two outsides, the earlier
      side of `outsides` first (so a path and its reversal never both occur);
      each route is a chain of at least two apertures from its start to its
      end whose intermediate places are rooms, none entered twice except
      through an aperture joining a room to itself. */
  predicate WellRouted(t: TransportPath, nodes: set<Place>)
  {
    0 <= OutsideRank(t.start) < OutsideRank(t.end) &&
    Chain(t.route, t.start, t.end, nodes) && |t.route| >= 2 &&
    (forall i :: 0 <= i < |t.route| - 1 ==> Next(t.route[i]).Room?) &&
    forall i, j :: 0 <= i < j < |t.route| - 1 && Next(t.route[i]) == Next(t.route[j]) ==> j == i + 1
  }

  lemma {:induction false} PathsWellRouted(g: map<Place, seq<Edge>>, rooms: seq<nat>, n: nat)
    requires Closed(g) && g.Keys == NodeSet(rooms) && n <= |Pairs|
    ensures forall k :: 0 <= k < |Pairs| ==> Pairs[k].0 in g
    ensures forall t :: t in PathsOfPairs(g, n) ==> WellRouted(t, g.Keys) && Crosses(g, t.route)
  {
    if n > 0 {
      PathsWellRouted(g, rooms, n - 1);
      BetweenWellRouted(g, rooms, n - 1);
    }
  }

  /** The paths between one outside pair are well routed. */
  lemma BetweenWellRouted(g: map<Place, seq<Edge>>, rooms: seq<nat>, n: nat)
    requires Closed(g) && g.Keys == NodeSet(rooms) && n < |Pairs|
    ensures Pairs[n].0 in g
    ensures forall t :: t in Between(g, Pairs[n]) ==> WellRouted(t, g.Keys) && Crosses(g, t.route)
  {
    var pair := Pairs[n];
    RoutesShape(g, pair.1, Outsides, pair.0);
    var b := Between(g, pair);
    forall k | 0 <= k < |b|
      ensures WellRouted(b[k], g.Keys) && Crosses(g, b[k].route)
    {
      var s := b[k].route;
      assert s in Routes(g, pair.1, Outsides, pair.0);
      RouteThroughRooms(s, pair.0, pair.1, g.Keys, rooms);
    }
  }

  /** A simple chain between two outsides with the outsides visited crosses
      at least two apertures, and its intermediate places are rooms. */
  lemma RouteThroughRooms(s: seq<Participation>, start: Place, final: Place, nodes: set<Place>, rooms: seq<nat>)
    requires start in Outsides && final in Outsides && nodes == NodeSet(rooms)
    requires Chain(s, start, final, nodes) && Simple(s, Outsides, start, final)
    ensures |s| >= 2 && forall i :: 0 <= i < |s| - 1 ==> Next(s[i]).Room?
  {
    OneEndIsRoom(s[0]);
    if |s| == 1 {
      assert false;
    }
    forall i | 0 <= i < |s| - 1
      ensures Next(s[i]).Room?
    {
      assert Next(s[i]) in nodes && Next(s[i]) !in Outsides;
      InNodeSet(rooms, Next(s[i]));
    }
  }

  /** Every path `paths_through_building` returns is well routed. */
  lemma BuildingPathsWellRouted(rooms: seq<nat>, apertures: seq<Aperture>, t: TransportPath)
    requires forall i :: 0 <= i < |apertures| ==> Known(rooms, apertures[i])
    requires forall k :: 0 <= k < |Pairs| ==> Pairs[k].0 in Graph(rooms, apertures)
    requires t in PathsOfPairs(Graph(rooms, apertures), |Pairs|)
    ensures WellRouted(t, NodeSet(rooms))
  {
    PathsWellRouted(Graph(rooms, apertures), rooms, |Pairs|);
  }

  /** A path between outside pair `n` is among the paths of any longer run of
      pairs. */
  lemma {:induction false} InPathsOfPairs(g: map<Place, seq<Edge>>, n: nat, m: nat, t: TransportPath)
    requires Closed(g) && n < m <= |Pairs| && forall k :: 0 <= k < |Pairs| ==> Pairs[k].0 in g
    requires t in Between(g, Pairs[n])
    ensures t in PathsOfPairs(g, m)
  {
    if n < m - 1 {
      InPathsOfPairs(g, n, m - 1, t);
    }
  }

  /** The edges of the building graph are exactly the crossings of its
      apertures, forwards from the origin room or backwards from the
      destination. */
  lemma CrossesApertures(rooms: seq<nat>, apertures: seq<Aperture>, route: seq<Participation>)
    requires forall i :: 0 <= i < |route| ==> From(route[i]) in NodeSet(rooms)
    ensures Crosses(Graph(rooms, apertures), route) <==> forall i :: 0 <= i < |route| ==> route[i].aperture in apertures
  {
    var g := Graph(rooms, apertures);
    forall i | 0 <= i < |route|
      ensures Edge(Next(route[i]), route[i]) in g[From(route[i])] <==> route[i].aperture in apertures
    {
      var p := route[i];
      IncidentEdges(apertures, From(p), Edge(Next(p), p));
    }
  }

  /** Every listed path crosses only the building's apertures. */
  lemma BuildingPathsSound(rooms: seq<nat>, apertures: seq<Aperture>, t: TransportPath)
    requires forall i :: 0 <= i < |apertures| ==> Known(rooms, apertures[i])
    requires forall k :: 0 <= k < |Pairs| ==> Pairs[k].0 in Graph(rooms, apertures)
    requires t in PathsOfPairs(Graph(rooms, apertures), |Pairs|)
    ensures WellRouted(t, NodeSet(rooms)) && forall i :: 0 <= i < |t.route| ==> t.route[i].aperture in apertures
  {
    var g := Graph(rooms, apertures);
    PathsWellRouted(g, rooms, |Pairs|);
    InNodeSet(rooms, t.start);
    ThroughNodes(t.route, t.start, t.end, g.Keys);
    CrossesApertures(rooms, apertures, t.route);
  }

  /** Every well-routed path over the building's apertures is listed. */
  lemma BuildingPathsComplete(rooms: seq<nat>, apertures: seq<Aperture>, t: TransportPath)
    requires forall i :: 0 <= i < |apertures| ==> Known(rooms, apertures[i])
    requires forall k :: 0 <= k < |Pairs| ==> Pairs[k].0 in Graph(rooms, apertures)
    requires WellRouted(t, NodeSet(rooms)) && forall i :: 0 <= i < |t.route| ==> t.route[i].aperture in apertures
    ensures t in PathsOfPairs(Graph(rooms, apertures), |Pairs|)
  {
    var g := Graph(rooms, apertures);
    var s := t.route;
    InNodeSet(rooms, t.start);
    ThroughNodes(s, t.start, t.end, g.Keys);
    CrossesApertures(rooms, apertures, s);
    WellRoutedSimple(t, g.Keys);
    RoutesComplete(g, t.end, Outsides, t.start, s);
    var n := PairOf(t.start, t.end);
    var routes := Routes(g, t.end, Outsides, t.start);
    var k :| 0 <= k < |routes| && routes[k] == s;
    assert Between(g, Pairs[n])[k] == t;
    InPathsOfPairs(g, n, |Pairs|, t);
  }

  /** What `paths_through_building` returns, exactly: a path is listed if and
      only if it is well routed through the building's nodes and crosses only
      the building's apertures. */
  lemma BuildingPathsExactly(rooms: seq<nat>, apertures: seq<Aperture>, t: TransportPath)
    requires forall i :: 0 <= i < |apertures| ==> Known(rooms, apertures[i])
    ensures forall k :: 0 <= k < |Pairs| ==> Pairs[k].0 in Graph(rooms, apertures)
    ensures t in PathsOfPairs(Graph(rooms, apertures), |Pairs|) <==>
      WellRouted(t, NodeSet(rooms)) && forall i :: 0 <= i < |t.route| ==> t.route[i].aperture in apertures
  {
    PathsWellRouted(Graph(rooms, apertures), rooms, |Pairs|);
    if t in PathsOfPairs(Graph(rooms, apertures), |Pairs|) {
      BuildingPathsSound(rooms, apertures, t);
    }
    if WellRouted(t, NodeSet(rooms)) && forall i :: 0 <= i < |t.route| ==> t.route[i].aperture in apertures {
      BuildingPathsComplete(rooms, apertures, t);
    }
  }

  /** A well-routed path is a simple chain for the search from its start,
      with the outsides visited. */
  lemma WellRoutedSimple(t: TransportPath, nodes: set<Place>)
    requires WellRouted(t, nodes)
    ensures Simple(t.route, Outsides, t.start, t.end)
  {
    var s := t.route;
    assert t.start.Outside? && t.end.Outside?;
    forall i | 0 <= i < |s| - 1
      ensures Next(s[i]) !in Outsides && Next(s[i]) != t.end && Next(s[i]) != t.start
    {
      assert Next(s[i]).Room?;
    }
  }

  /** The position of an ordered pair of outsides in `Pairs`. */
  lemma PairOf(a: Place, b: Place) returns (n: nat)
    requires 0 <= OutsideRank(a) < OutsideRank(b)
    ensures n < |Pairs| && Pairs[n] == (a, b)
  {
    var i, j := OutsideRank(a), OutsideRank(b);
    n := if i == 0 then j - 1 else if i == 1 then j + 1 else 5;
  }

  /** Every aperture of a chain from a node is entered from a node. */
  lemma ThroughNodes(s: seq<Participation>, start: Place, final: Place, nodes: set<Place>)
    requires Chain(s, start, final, nodes) && start in nodes
    ensures forall i :: 0 <= i < |s| ==> From(s[i]) in nodes
  {
    forall i | 0 < i < |s|
      ensures From(s[i]) in nodes
    {
      assert From(s[i]) == Next(s[i - 1]);
    }
  }

  /** Appending an aperture appends its edges. */
  lemma IncidentAppend(apertures: seq<Aperture>, a: Aperture, p: Place)
    ensures Incident(apertures + [a], p) == Incident(apertures, p)
        + (if Room(a.origin) == p then [Edge(a.destination, Participation(a, false))] else [])
        + (if a.destination == p then [Edge(Room(a.origin), Participation(a, true))] else [])
  {
    assert (apertures + [a])[..|apertures|] == apertures;
  }

  /** The lists of the one-room graphs below. */
  lemma OneRoomGraph(apertures: seq<Aperture>, p: Place)
    requires p in Outsides || p == Room(0)
    ensures p in Graph([0], apertures) && Graph([0], apertures)[p] == Incident(apertures, p)
  {
    InNodeSet([0], p);
  }

  /** One room with one front window: the only route out of the front comes
      back to it, so there are no paths. */
  lemma OneWindowNoPaths()
    ensures PathsOfPairs(Graph([0], [Aperture(0, 0, Outside(Front), 1.0, Front)]), |Pairs|) == []
  {
    var a := Aperture(0, 0, Outside(Front), 1.0, Front);
    var g := Graph([0], [a]);
    OneWindowGraph(a);
    OneWindowRoutes(g, a);
    AllPairsEmpty(g);
  }

  /** The one-window graph: the front and the room each hold one crossing
      of the window, the other outsides nothing. */
  lemma OneWindowGraph(a: Aperture)
    requires a == Aperture(0, 0, Outside(Front), 1.0, Front)
    ensures var g := Graph([0], [a]);
      Closed(g) && Outside(Front) in g && Outside(Left) in g && Outside(Back) in g && Outside(Right) in g &&
      Room(0) in g &&
      g[Outside(Front)] == [Edge(Room(0), Participation(a, true))] &&
      g[Room(0)] == [Edge(Outside(Front), Participation(a, false))] &&
      g[Outside(Left)] == [] && g[Outside(Back)] == [] && g[Outside(Right)] == []
  {
    assert Known([0], a);
    OneWindowAt(a, Outside(Front));
    OneWindowAt(a, Outside(Left));
    OneWindowAt(a, Outside(Back));
    OneWindowAt(a, Outside(Right));
    OneWindowAt(a, Room(0));
  }

  lemma OneWindowAt(a: Aperture, p: Place)
    requires a == Aperture(0, 0, Outside(Front), 1.0, Front)
    requires p in Outsides || p == Room(0)
    ensures p in Graph([0], [a])
    ensures Graph([0], [a])[p] ==
      (if p == Room(0) then [Edge(Outside(Front), Participation(a, false))]
       else if p == Outside(Front) then [Edge(Room(0), Participation(a, true))]
       else [])
  {
    assert [a] == [] + [a];
    OneRoomGraph([a], p);
    IncidentAppend([], a, p);
  }

  lemma OneWindowRoutes(g: map<Place, seq<Edge>>, a: Aperture)
    requires Closed(g) && Outside(Front) in g && Outside(Left) in g && Outside(Back) in g && Outside(Right) in g && Room(0) in g
    requires g[Outside(Front)] == [Edge(Room(0), Participation(a, true))]
    requires g[Room(0)] == [Edge(Outside(Front), Participation(a, false))]
    requires g[Outside(Left)] == [] && g[Outside(Back)] == [] && g[Outside(Right)] == []
    ensures forall k :: 0 <= k < |Pairs| ==> Pairs[k].0 in g && Routes(g, Pairs[k].1, Outsides, Pairs[k].0) == []
  {
    var fromFront := Outsides + [Outside(Front)];
    forall final | final in [Outside(Left), Outside(Back), Outside(Right)]
      ensures Routes(g, final, Outsides, Outside(Front)) == []
    {
      assert Explore(g, final, fromFront, Room(0), 1) == [];
      assert Routes(g, final, fromFront, Room(0)) == [];
      assert Explore(g, final, Outsides, Outside(Front), 1) == [];
    }
    assert Routes(g, Outside(Back), Outsides, Outside(Left)) == [];
    assert Routes(g, Outside(Right), Outsides, Outside(Left)) == [];
    assert Routes(g, Outside(Right), Outsides, Outside(Back)) == [];
  }

  /** No routes between any outside pair: no paths. */
  lemma AllPairsEmpty(g: map<Place, seq<Edge>>)
    requires Closed(g) && forall k :: 0 <= k < |Pairs| ==> Pairs[k].0 in g
    requires forall k :: 0 <= k < |Pairs| ==> Routes(g, Pairs[k].1, Outsides, Pairs[k].0) == []
    ensures PathsOfPairs(g, |Pairs|) == []
  {
    forall n | 0 <= n <= |Pairs|
      ensures PathsOfPairs(g, n) == []
    {
      PairsPrefixEmpty(g, n);
    }
  }

  lemma {:induction false} PairsPrefixEmpty(g: map<Place, seq<Edge>>, n: nat)
    requires Closed(g) && forall k :: 0 <= k < |Pairs| ==> Pairs[k].0 in g
    requires forall k :: 0 <= k < |Pairs| ==> Routes(g, Pairs[k].1, Outsides, Pairs[k].0) == []
    requires n <= |Pairs|
    ensures PathsOfPairs(g, n) == []
  {
    if n > 0 {
      PairsPrefixEmpty(g, n - 1);
    }
  }



  /** One room with a front and a back window: one path, from the front to
      the back, entering the first window reversed and leaving through the
      second forwards. */
  lemma TwoWindowsOnePath()
    ensures PathsOfPairs(Graph([0], [Aperture(0, 0, Outside(Front), 1.0, Front), Aperture(1, 0, Outside(Back), 1.0, Back)]), |Pairs|) ==
      [TransportPath(Outside(Front), Outside(Back),
        [Participation(Aperture(0, 0, Outside(Front), 1.0, Front), true), Participation(Aperture(1, 0, Outside(Back), 1.0, Back), false)])]
  {
    var a0 := Aperture(0, 0, Outside(Front), 1.0, Front);
    var a1 := Aperture(1, 0, Outside(Back), 1.0, Back);
    var g := Graph([0], [a0, a1]);
    TwoWindowsGraph(a0, a1);
    TwoWindowsRoutes(g, a0, a1);
    var path := TransportPath(Outside(Front), Outside(Back), [Participation(a0, true), Participation(a1, false)]);
    OnlyFrontBack(g, path);
  }

  /** Routes only between the front and the back: their paths only. */
  lemma OnlyFrontBack(g: map<Place, seq<Edge>>, path: TransportPath)
    requires Closed(g) && forall k :: 0 <= k < |Pairs| ==> Pairs[k].0 in g
    requires path.start == Outside(Front) && path.end == Outside(Back)
    requires Outside(Front) in g && Routes(g, Outside(Back), Outsides, Outside(Front)) == [path.route]
    requires forall k :: 0 <= k < |Pairs| && k != 1 ==> Routes(g, Pairs[k].1, Outsides, Pairs[k].0) == []
    ensures PathsOfPairs(g, |Pairs|) == [path]
  {
    assert Between(g, Pairs[1]) == [path];
    assert PathsOfPairs(g, 1) == [];
    assert PathsOfPairs(g, 2) == [path];
    assert PathsOfPairs(g, 3) == [path];
    assert PathsOfPairs(g, 4) == [path];
    assert PathsOfPairs(g, 5) == [path];
  }

  lemma TwoWindowsGraph(a0: Aperture, a1: Aperture)
    requires a0 == Aperture(0, 0, Outside(Front), 1.0, Front) && a1 == Aperture(1, 0, Outside(Back), 1.0, Back)
    ensures var g := Graph([0], [a0, a1]);
      Closed(g) && Outside(Front) in g && Outside(Left) in g && Outside(Back) in g && Outside(Right) in g && Room(0) in g &&
      g[Outside(Front)] == [Edge(Room(0), Participation(a0, true))] &&
      g[Outside(Back)] == [Edge(Room(0), Participation(a1, true))] &&
      g[Room(0)] == [Edge(Outside(Front), Participation(a0, false)), Edge(Outside(Back), Participation(a1, false))] &&
      g[Outside(Left)] == [] && g[Outside(Right)] == []
  {
    assert Known([0], a0) && Known([0], a1);
    TwoWindowsAt(a0, a1, Outside(Front));
    TwoWindowsAt(a0, a1, Outside(Left));
    TwoWindowsAt(a0, a1, Outside(Back));
    TwoWindowsAt(a0, a1, Outside(Right));
    TwoWindowsAt(a0, a1, Room(0));
  }

  lemma TwoWindowsAt(a0: Aperture, a1: Aperture, p: Place)
    requires a0 == Aperture(0, 0, Outside(Front), 1.0, Front) && a1 == Aperture(1, 0, Outside(Back), 1.0, Back)
    requires p in Outsides || p == Room(0)
    ensures p in Graph([0], [a0, a1])
    ensures p == Room(0) ==>
      Graph([0], [a0, a1])[p] == [Edge(Outside(Front), Participation(a0, false)), Edge(Outside(Back), Participation(a1, false))]
    ensures p == Outside(Front) ==> Graph([0], [a0, a1])[p] == [Edge(Room(0), Participation(a0, true))]
    ensures p == Outside(Back) ==> Graph([0], [a0, a1])[p] == [Edge(Room(0), Participation(a1, true))]
    ensures p == Outside(Left) || p == Outside(Right) ==> Graph([0], [a0, a1])[p] == []
  {
    OneRoomGraph([a0, a1], p);
    IncidentPair(a0, a1, p);
  }

  /** The lists after two apertures. */
  lemma IncidentPair(a0: Aperture, a1: Aperture, p: Place)
    ensures Incident([a0, a1], p) ==
      (if Room(a0.origin) == p then [Edge(a0.destination, Participation(a0, false))] else []) +
      (if a0.destination == p then [Edge(Room(a0.origin), Participation(a0, true))] else []) +
      (if Room(a1.origin) == p then [Edge(a1.destination, Participation(a1, false))] else []) +
      (if a1.destination == p then [Edge(Room(a1.origin), Participation(a1, true))] else [])
  {
    var x0 := if Room(a0.origin) == p then [Edge(a0.destination, Participation(a0, false))] else [];
    var y0 := if a0.destination == p then [Edge(Room(a0.origin), Participation(a0, true))] else [];
    assert [a0, a1] == [a0] + [a1] && [a0] == [] + [a0];
    IncidentAppend([], a0, p);
    assert Incident([a0], p) == x0 + y0;
    IncidentAppend([a0], a1, p);
  }

  lemma TwoWindowsRoutes(g: map<Place, seq<Edge>>, a0: Aperture, a1: Aperture)
    requires Closed(g) && Outside(Front) in g && Outside(Left) in g && Outside(Back) in g && Outside(Right) in g && Room(0) in g
    requires g[Outside(Front)] == [Edge(Room(0), Participation(a0, true))]
    requires g[Outside(Back)] == [Edge(Room(0), Participation(a1, true))]
    requires g[Room(0)] == [Edge(Outside(Front), Participation(a0, false)), Edge(Outside(Back), Participation(a1, false))]
    requires g[Outside(Left)] == [] && g[Outside(Right)] == []
    ensures Routes(g, Outside(Back), Outsides, Outside(Front)) == [[Participation(a0, true), Participation(a1, false)]]
    ensures forall k :: 0 <= k < |Pairs| && k != 1 ==> Pairs[k].0 in g && Routes(g, Pairs[k].1, Outsides, Pairs[k].0) == []
  {
    var fromFront := Outsides + [Outside(Front)];
    var fromBack := Outsides + [Outside(Back)];
    assert Explore(g, Outside(Back), fromFront, Room(0), 1) == [[Participation(a1, false)]];
    assert Routes(g, Outside(Back), fromFront, Room(0)) == [[Participation(a1, false)]];
    assert Explore(g, Outside(Back), Outsides, Outside(Front), 1) == [];
    assert [Participation(a0, true)] + [Participation(a1, false)] == [Participation(a0, true), Participation(a1, false)];
    assert Prepend(Participation(a0, true), [[Participation(a1, false)]]) == [[Participation(a0, true), Participation(a1, false)]];
    assert Explore(g, Outside(Back), Outsides, Outside(Front), 0) == [[Participation(a0, true), Participation(a1, false)]];
    forall final | final in [Outside(Left), Outside(Right)]
      ensures Routes(g, final, Outsides, Outside(Front)) == []
    {
      assert Explore(g, final, fromFront, Room(0), 1) == [];
      assert Routes(g, final, fromFront, Room(0)) == [];
      assert Explore(g, final, Outsides, Outside(Front), 1) == [];
    }
    assert Explore(g, Outside(Right), fromBack, Room(0), 1) == [];
    assert Routes(g, Outside(Right), fromBack, Room(0)) == [];
    assert Explore(g, Outside(Right), Outsides, Outside(Back), 1) == [];
  }
}
