/** The builder's breadth-first connectivity test and its orphan search. */
module Connectivity {
  import opened Graph

  /** Undirected adjacency as the builder's map holds it: every known endpoint lists the other
      endpoint, which may itself be unknown. */
  function Links(ids: set<Id>, edges: seq<Edge>): set<(Id, Id)> {
    (set e | e in edges && e.source in ids :: (e.source, e.target))
    + (set e | e in edges && e.target in ids :: (e.target, e.source))
  }

  function Universe(ids: set<Id>, edges: seq<Edge>): set<Id> {
    ids + (set e | e in edges :: e.source) + (set e | e in edges :: e.target)
  }

  /** Everything the breadth-first search can visit from a start node. */
  ghost function Component(ids: set<Id>, edges: seq<Edge>, start: Id): set<Id> {
    set v | v in Universe(ids, edges) && Reaches(Links(ids, edges), start, v)
  }

  ghost predicate KnownEndpoints(ids: set<Id>, edges: seq<Edge>) {
    forall e :: e in edges ==> e.source in ids && e.target in ids
  }

  ghost predicate Connected(ids: set<Id>, edges: seq<Edge>) {
    forall u, v :: u in ids && v in ids ==> Reaches(Links(ids, edges), u, v)
  }

  function InsertOnce(s: seq<Id>, x: Id): seq<Id> {
    if x in s then s else s + [x]
  }

  ghost predicate Lists(ids: set<Id>, adj: map<Id, seq<Id>>, links: set<(Id, Id)>) {
    && adj.Keys == ids
    && (forall u, v :: u in adj && v in adj[u] ==> (u, v) in links)
    && (forall u, v :: (u, v) in links ==> u in adj && v in adj[u])
  }

  lemma LinksOfPrefix(ids: set<Id>, edges: seq<Edge>, i: nat)
    requires i < |edges|
    ensures var e := edges[i];
      Links(ids, edges[..i + 1])
      == Links(ids, edges[..i])
         + (if e.source in ids then {(e.source, e.target)} else {})
         + (if e.target in ids then {(e.target, e.source)} else {})
  {
    assert edges[..i + 1] == edges[..i] + [edges[i]];
    assert forall x :: x in edges[..i + 1] <==> x in edges[..i] || x == edges[i];
  }

  lemma ListsInsert(ids: set<Id>, adj: map<Id, seq<Id>>, links: set<(Id, Id)>, u: Id, v: Id)
    requires Lists(ids, adj, links)
    ensures
      if u in adj then Lists(ids, adj[u := InsertOnce(adj[u], v)], links + {(u, v)})
      else u !in ids
  {
  }

  method BuildAdjacencyList(ids: seq<Id>, edges: seq<Edge>) returns (adj: map<Id, seq<Id>>)
    ensures Lists(ToSet(ids), adj, Links(ToSet(ids), edges))
  {
    ghost var known := ToSet(ids);
    adj := map x | x in ids :: [];
    for i := 0 to |edges|
      invariant adj.Keys == known
      invariant Lists(known, adj, Links(known, edges[..i]))
    {
      hide Lists, Links, InsertOnce;
      var e := edges[i];
      ghost var links := Links(known, edges[..i]);
      LinksOfPrefix(known, edges, i);
      if e.source in adj {
        ListsInsert(known, adj, links, e.source, e.target);
        adj := adj[e.source := InsertOnce(adj[e.source], e.target)];
        links := links + {(e.source, e.target)};
      }
      if e.target in adj {
        ListsInsert(known, adj, links, e.target, e.source);
        adj := adj[e.target := InsertOnce(adj[e.target], e.source)];
      }
    }
    assert edges[..|edges|] == edges;
  }

  /** Visited nodes are reachable, and every visited node outside the queue has all its neighbours visited. */
  ghost predicate Exploring(ids: set<Id>, edges: seq<Edge>, start: Id, visited: set<Id>, queue: seq<Id>) {
    && start in visited
    && visited <= Component(ids, edges, start)
    && ToSet(queue) <= visited
    && (forall u, v :: u in visited && u !in queue && (u, v) in Links(ids, edges) ==> v in visited)
  }

  lemma ExploredAll(ids: set<Id>, edges: seq<Edge>, start: Id, visited: set<Id>)
    requires Exploring(ids, edges, start, visited, [])
    ensures visited == Component(ids, edges, start)
  {
    forall v | v in Component(ids, edges, start)
      ensures v in visited
    {
      var p :| Walk(Links(ids, edges), p) && p[0] == start && p[|p| - 1] == v;
      WalkStaysInside(Links(ids, edges), visited, p);
    }
  }

  lemma LinkStaysInComponent(ids: set<Id>, edges: seq<Edge>, start: Id, u: Id, v: Id)
    requires u in Component(ids, edges, start) && (u, v) in Links(ids, edges)
    ensures v in Component(ids, edges, start)
  {
    ReachesStep(Links(ids, edges), start, u, v);
  }

  /** The state while the neighbours of `current` are being scanned: those seen so far are visited. */
  ghost predicate Scanning(ids: set<Id>, edges: seq<Edge>, start: Id, current: Id, seen: seq<Id>,
                           visited: set<Id>, queue: seq<Id>) {
    && start in visited && current in visited
    && visited <= Component(ids, edges, start)
    && ToSet(queue) <= visited
    && (forall v :: v in seen ==> v in visited)
    && (forall u, v :: u in visited && u !in queue && u != current && (u, v) in Links(ids, edges) ==> v in visited)
  }

  lemma ScanStep(ids: set<Id>, edges: seq<Edge>, start: Id, current: Id, seen: seq<Id>,
                 visited: set<Id>, queue: seq<Id>, v: Id)
    requires Scanning(ids, edges, start, current, seen, visited, queue)
    requires (current, v) in Links(ids, edges)
    ensures
      if v in visited then Scanning(ids, edges, start, current, seen + [v], visited, queue)
      else Scanning(ids, edges, start, current, seen + [v], visited + {v}, queue + [v])
    ensures v in Universe(ids, edges)
  {
    hide Links;
    LinkStaysInComponent(ids, edges, start, current, v);
    hide Component;
    assert v in Universe(ids, edges) by {
      InUniverse(ids, edges, start, v);
    }
  }

  lemma InUniverse(ids: set<Id>, edges: seq<Edge>, start: Id, v: Id)
    requires v in Component(ids, edges, start)
    ensures v in Universe(ids, edges)
  {
  }

  lemma ScanStart(ids: set<Id>, edges: seq<Edge>, start: Id, visited: set<Id>, queue: seq<Id>)
    requires queue != [] && Exploring(ids, edges, start, visited, queue)
    ensures Scanning(ids, edges, start, queue[0], [], visited, queue[1..])
  {
    hide Links, Component;
    assert forall u :: u in queue ==> u == queue[0] || u in queue[1..];
    assert forall u :: u in queue[1..] ==> u in queue;
    assert queue[0] in ToSet(queue);
  }

  lemma ScanEnd(ids: set<Id>, edges: seq<Edge>, start: Id, current: Id, seen: seq<Id>,
                visited: set<Id>, queue: seq<Id>)
    requires Scanning(ids, edges, start, current, seen, visited, queue)
    requires forall v :: (current, v) in Links(ids, edges) ==> v in seen
    ensures Exploring(ids, edges, start, visited, queue)
  {
    hide Links, Component;
  }

  function NeighborsOf(adj: map<Id, seq<Id>>, u: Id): seq<Id> {
    if u in adj then adj[u] else []
  }

  lemma NeighborsAreLinks(ids: set<Id>, adj: map<Id, seq<Id>>, links: set<(Id, Id)>, u: Id)
    requires Lists(ids, adj, links)
    ensures forall v :: v in NeighborsOf(adj, u) <==> (u, v) in links
  {
  }

  lemma ExploreStart(ids: seq<Id>, edges: seq<Edge>)
    requires ids != []
    ensures Exploring(ToSet(ids), edges, ids[0], {ids[0]}, [ids[0]])
    ensures {ids[0]} <= Universe(ToSet(ids), edges)
  {
    ReachesSelf(Links(ToSet(ids), edges), ids[0]);
  }

  method Bfs(ids: seq<Id>, edges: seq<Edge>) returns (visited: set<Id>)
    requires ids != []
    ensures visited == Component(ToSet(ids), edges, ids[0])
  {
    hide *;
    ghost var known, universe := ToSet(ids), Universe(ToSet(ids), edges);
    var adj := BuildAdjacencyList(ids, edges);
    visited := {ids[0]};
    var queue := [ids[0]];
    ExploreStart(ids, edges);
    while queue != []
      invariant Exploring(known, edges, ids[0], visited, queue)
      invariant visited <= universe
      decreases universe - visited, |queue|
    {
      var current := queue[0];
      ScanStart(known, edges, ids[0], visited, queue);
      queue := queue[1..];
      var neighbors := NeighborsOf(adj, current);
      NeighborsAreLinks(known, adj, Links(known, edges), current);
      ghost var before, rest := visited, queue;
      for j := 0 to |neighbors|
        invariant Scanning(known, edges, ids[0], current, neighbors[..j], visited, queue)
        invariant before <= visited <= universe
        invariant visited == before ==> queue == rest
      {
        var neighbor := neighbors[j];
        assert neighbors[..j + 1] == neighbors[..j] + [neighbor];
        ScanStep(known, edges, ids[0], current, neighbors[..j], visited, queue, neighbor);
        if neighbor !in visited {
          visited := visited + {neighbor};
          queue := queue + [neighbor];
        }
      }
      assert neighbors[..|neighbors|] == neighbors;
      ScanEnd(known, edges, ids[0], current, neighbors, visited, queue);
    }
    ExploredAll(known, edges, ids[0], visited);
  }

  method IsFullyConnected(ids: seq<Id>, edges: seq<Edge>) returns (r: bool)
    ensures r <==> |ids| <= 1 || |Component(ToSet(ids), edges, ids[0])| == |ids|
  {
    if |ids| <= 1 {
      return true;
    }
    var visited := Bfs(ids, edges);
    r := |visited| == |ids|;
  }

  /** Links with both ends known run both ways; a link to an unknown id has no way back. */
  function InnerLinks(known: set<Id>, edges: seq<Edge>): set<(Id, Id)> {
    set l | l in Links(known, edges) && l.1 in known
  }

  lemma {:induction false} WalkIsInner(known: set<Id>, edges: seq<Edge>, p: seq<Id>)
    requires Walk(Links(known, edges), p) && p[|p| - 1] in known
    ensures Walk(InnerLinks(known, edges), p)
  {
    forall i | 0 <= i < |p| - 1
      ensures (p[i], p[i + 1]) in InnerLinks(known, edges)
    {
      assert (p[i], p[i + 1]) in Links(known, edges);
      assert i + 1 < |p| - 1 ==> (p[i + 1], p[i + 2]) in Links(known, edges);
    }
  }

  lemma InnerSymmetric(known: set<Id>, edges: seq<Edge>)
    ensures Symmetric(InnerLinks(known, edges))
  {
  }

  lemma ReachedReachesBack(known: set<Id>, edges: seq<Edge>, start: Id, u: Id)
    requires u in Component(known, edges, start) && u in known
    ensures Reaches(Links(known, edges), u, start)
  {
    var p :| Walk(Links(known, edges), p) && p[0] == start && p[|p| - 1] == u;
    WalkIsInner(known, edges, p);
    InnerSymmetric(known, edges);
    ReachesReversed(InnerLinks(known, edges), p);
    var q :| Walk(InnerLinks(known, edges), q) && q[0] == u && q[|q| - 1] == start;
    assert Walk(Links(known, edges), q);
  }

  /** Connectedness is reaching every known id from one of them, whatever unknown ids are reached besides. */
  lemma ConnectedIffAllReached(known: set<Id>, edges: seq<Edge>, start: Id)
    requires start in known
    ensures Connected(known, edges) <==> known <= Component(known, edges, start)
  {
    if known <= Component(known, edges, start) {
      forall u, v | u in known && v in known
        ensures Reaches(Links(known, edges), u, v)
      {
        ReachedReachesBack(known, edges, start, u);
        ReachesTransitive(Links(known, edges), u, start, v);
      }
    }
  }

  /** What the size test decides: as many unknown ids are reached as known ones are missed. */
  lemma SizeTestCompensates(ids: seq<Id>, edges: seq<Edge>)
    requires ids != [] && Distinct(ids)
    ensures
      var known, reached := ToSet(ids), Component(ToSet(ids), edges, ids[0]);
      |reached| == |ids| <==> |reached - known| == |known - reached|
  {
    hide Component;
    var known, reached := ToSet(ids), Component(ToSet(ids), edges, ids[0]);
    DistinctCardinality(ids);
    assert known == (known * reached) + (known - reached);
    assert reached == (known * reached) + (reached - known);
  }

  /** The size test is right about a graph if and only if no unknown id is reached when nothing is
      missed, and the numbers differ when something is. */
  lemma SizeTestRightIff(ids: seq<Id>, edges: seq<Edge>)
    requires ids != [] && Distinct(ids)
    ensures
      var known, reached := ToSet(ids), Component(ToSet(ids), edges, ids[0]);
      (|reached| == |ids| <==> Connected(known, edges))
      <==> if known <= reached then reached <= known else |reached - known| != |known - reached|
  {
    hide Component, Connected;
    var known, reached := ToSet(ids), Component(ToSet(ids), edges, ids[0]);
    SizeTestCompensates(ids, edges);
    ConnectedIffAllReached(known, edges, ids[0]);
    EmptyDifference(known, reached);
    EmptyDifference(reached, known);
  }

  /** An edge with exactly one known end. */
  predicate HalfKnown(known: set<Id>, e: Edge) {
    (e.source in known) != (e.target in known)
  }

  /** Such edges are how unknown ids are reached. */
  lemma ReachedUnknown(known: set<Id>, edges: seq<Edge>, start: Id, x: Id)
    requires start in known && x in Component(known, edges, start) && x !in known
    ensures exists e :: e in edges && HalfKnown(known, e)
  {
    var links := Links(known, edges);
    var p :| Walk(links, p) && p[0] == start && p[|p| - 1] == x;
    assert (p[|p| - 2], p[|p| - 1]) in links;
    var e :| e in edges && ((e.source == p[|p| - 2] && e.target == x && e.source in known)
                            || (e.target == p[|p| - 2] && e.source == x && e.target in known));
    assert HalfKnown(known, e);
  }

  lemma HalfKnownReaches(known: set<Id>, edges: seq<Edge>, start: Id, e: Edge)
    requires known <= Component(known, edges, start) && e in edges && HalfKnown(known, e)
    ensures !(Component(known, edges, start) <= known)
  {
    var u, x := if e.source in known then e.source else e.target, if e.source in known then e.target else e.source;
    assert (u, x) in Links(known, edges);
    LinkStaysInComponent(known, edges, start, u, x);
  }

  /** On a connected graph of several nodes the test is right if and only if no edge has exactly one known end. */
  lemma ConnectedPassesIff(ids: seq<Id>, edges: seq<Edge>)
    requires |ids| > 1 && Distinct(ids) && Connected(ToSet(ids), edges)
    ensures |Component(ToSet(ids), edges, ids[0])| == |ids| <==> forall e :: e in edges ==> !HalfKnown(ToSet(ids), e)
  {
    hide Component, Connected, HalfKnown;
    var known, reached := ToSet(ids), Component(ToSet(ids), edges, ids[0]);
    SizeTestRightIff(ids, edges);
    ConnectedIffAllReached(known, edges, ids[0]);
    if x :| x in reached && x !in known {
      ReachedUnknown(known, edges, ids[0], x);
    }
    if e :| e in edges && HalfKnown(known, e) {
      HalfKnownReaches(known, edges, ids[0], e);
    }
  }

  lemma EmptyDifference<T>(a: set<T>, b: set<T>)
    ensures |a - b| == 0 <==> a <= b
  {
    if |a - b| == 0 {
      assert forall x :: x in a && x !in b ==> x in a - b;
    }
  }

  /** With known endpoints and distinct ids the size test means connectivity. */
  lemma SizeTestMeansConnected(ids: seq<Id>, edges: seq<Edge>)
    requires ids != [] && Distinct(ids) && KnownEndpoints(ToSet(ids), edges)
    ensures |Component(ToSet(ids), edges, ids[0])| == |ids| <==> Connected(ToSet(ids), edges)
  {
    SizeTestRightIff(ids, edges);
    hide Connected;
    var known, reached := ToSet(ids), Component(ToSet(ids), edges, ids[0]);
    assert reached <= known;
    EmptyDifference(reached, known);
    EmptyDifference(known, reached);
  }

  /** The size test alone accepts a disconnected graph: an edge to an unknown id stands in for the missing node. */
  lemma DanglingEdgeFoolsSizeTest()
    ensures
      var a, b, ghostly := Name("a"), Name("b"), Name("x");
      var edges := [Edge(a, ghostly, "")];
      |Component({a, b}, edges, a)| == 2 && !Connected({a, b}, edges)
  {
    var a, b, ghostly := Name("a"), Name("b"), Name("x");
    var edges := [Edge(a, ghostly, "")];
    var links := Links({a, b}, edges);
    assert edges[0] in edges && edges[0].source == a;
    assert links == {(a, ghostly)};
    ReachesSelf(links, a);
    ReachesStep(links, a, a, ghostly);
    forall v | Reaches(links, a, v)
      ensures v in {a, ghostly}
    {
      var p :| Walk(links, p) && p[0] == a && p[|p| - 1] == v;
      WalkStaysInside(links, {a, ghostly}, p);
    }
    assert Component({a, b}, edges, a) == {a, ghostly};
  }

  /** It also refuses a connected graph: an edge to an unknown id makes the component too large. */
  lemma DanglingEdgeSpoilsSizeTest()
    ensures
      var a, b, ghostly := Name("a"), Name("b"), Name("x");
      var edges := [Edge(a, b, ""), Edge(b, ghostly, "")];
      |Component({a, b}, edges, a)| == 3 && Connected({a, b}, edges)
  {
    var a, b, ghostly := Name("a"), Name("b"), Name("x");
    var edges := [Edge(a, b, ""), Edge(b, ghostly, "")];
    var links := Links({a, b}, edges);
    assert edges[0] in edges && edges[1] in edges;
    assert (a, b) in links && (b, ghostly) in links;
    ReachesSelf(links, a);
    ReachesStep(links, a, a, b);
    ReachesStep(links, a, b, ghostly);
    assert Component({a, b}, edges, a) == {a, b, ghostly};
    ConnectedIffAllReached({a, b}, edges, a);
  }
}
