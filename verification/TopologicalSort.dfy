/** The executor's Kahn sort with its definition-order fallback. */
module TopologicalSort {
  import opened Graph

  /** The adjacency list of u: the known targets of its edges, in definition order, with repeats. */
  function Neighbors(ids: set<Id>, edges: seq<Edge>, u: Id): seq<Id> {
    if edges == [] then []
    else
      var e := edges[|edges| - 1];
      Neighbors(ids, edges[..|edges| - 1], u)
      + if e.source == u && e.source in ids && e.target in ids then [e.target] else []
  }

  /** The number of edges into v, with repeats, whose known source is not yet done. */
  function Pending(ids: set<Id>, edges: seq<Edge>, done: set<Id>, v: Id): nat {
    if edges == [] then 0
    else
      var e := edges[|edges| - 1];
      Pending(ids, edges[..|edges| - 1], done, v)
      + if e.source in ids - done && e.target in ids && e.target == v then 1 else 0
  }

  /** How often v occurs in s. */
  ghost function Times(s: seq<Id>, v: Id): nat { multiset(s)[v] }

  lemma {:induction false} PendingWithoutOne(ids: set<Id>, edges: seq<Edge>, done: set<Id>, u: Id, v: Id)
    requires u !in done
    ensures Pending(ids, edges, done, v)
         == Pending(ids, edges, done + {u}, v) + Times(Neighbors(ids, edges, u), v)
    decreases |edges|
  {
    if edges != [] {
      PendingWithoutOne(ids, edges[..|edges| - 1], done, u, v);
    }
  }

  lemma {:induction false} PendingZero(ids: set<Id>, edges: seq<Edge>, done: set<Id>, v: Id)
    ensures Pending(ids, edges, done, v) == 0
       <==> forall u :: (u, v) in Arcs(ids, edges) ==> u in done
    decreases |edges|
  {
    if edges != [] {
      var rest, e := edges[..|edges| - 1], edges[|edges| - 1];
      PendingZero(ids, rest, done, v);
      assert edges == rest + [e];
      forall u
        ensures (u, v) in Arcs(ids, edges)
           <==> (u, v) in Arcs(ids, rest) || (e.source == u && e.target == v && u in ids && v in ids)
      {
        assert forall x :: x in edges <==> x in rest || x == e;
      }
    }
  }

  lemma {:induction false} NeighborsAreArcs(ids: set<Id>, edges: seq<Edge>, u: Id)
    ensures forall v :: v in Neighbors(ids, edges, u) ==> (u, v) in Arcs(ids, edges)
    decreases |edges|
  {
    if edges != [] {
      var rest, e := edges[..|edges| - 1], edges[|edges| - 1];
      NeighborsAreArcs(ids, rest, u);
      assert forall x :: x in edges <==> x in rest || x == e;
    }
  }

  /** The ids that lie on or below a cycle, in definition order. */
  ghost function CycleBound(ids: seq<Id>, arcs: set<(Id, Id)>): seq<Id> {
    if ids == [] then []
    else
      CycleBound(ids[..|ids| - 1], arcs)
      + if FromCycle(arcs, ids[|ids| - 1]) then [ids[|ids| - 1]] else []
  }

  lemma CycleBoundMembers(ids: seq<Id>, arcs: set<(Id, Id)>)
    ensures |CycleBound(ids, arcs)| <= |ids|
    ensures forall v :: v in CycleBound(ids, arcs) <==> v in ids && FromCycle(arcs, v)
  {
  }

  lemma {:induction false} MultisetOfDistinct<T>(s: seq<T>)
    requires Distinct(s)
    ensures forall x :: multiset(s)[x] == if x in s then 1 else 0
    decreases |s|
  {
    if s != [] {
      var rest := s[..|s| - 1];
      MultisetOfDistinct(rest);
      assert s == rest + [s[|s| - 1]];
    }
  }

  /** Nothing occurs twice. */
  lemma OnceIsDistinct(s: seq<Id>)
    requires forall x :: multiset(s)[x] <= 1
    ensures Distinct(s)
  {
    forall i, j | 0 <= i < j < |s|
      ensures s[i] != s[j]
    {
      var a, b := s[..j], s[j..];
      assert s == a + b;
      assert a[i] in multiset(a) && b[0] in multiset(b);
      assert multiset(s)[s[i]] == multiset(a)[s[i]] + multiset(b)[s[i]];
    }
  }

  /** What Kahn's loop keeps: emitted and queued ids form a depth-sorted topological prefix. */
  ghost predicate Layered(arcs: set<(Id, Id)>, depth: map<Id, nat>, s: seq<Id>) {
    && Distinct(s)
    && depth.Keys == ToSet(s)
    && (forall v :: v in depth ==> HasDepth(arcs, v, depth[v]))
    && (forall i, j :: 0 <= i < j < |s| ==> depth[s[i]] <= depth[s[j]])
  }

  /** Every predecessor of an emitted or queued id has been emitted. */
  ghost predicate PredecessorsIn(arcs: set<(Id, Id)>, vs: set<Id>, done: set<Id>) {
    forall u, v :: (u, v) in arcs && v in vs ==> u in done
  }

  lemma LayeredOrdersArcs(arcs: set<(Id, Id)>, depth: map<Id, nat>, s: seq<Id>, j: nat, u: Id)
    requires Layered(arcs, depth, s) && PredecessorsIn(arcs, ToSet(s), ToSet(s))
    requires j < |s| && (u, s[j]) in arcs
    ensures u in depth && depth[u] < depth[s[j]]
    ensures u in s[..j]
  {
    hide *;
    ArcDeepens(arcs, depth, s, s[j], u);
    var i :| 0 <= i < |s| && s[i] == u;
    ShallowFirst(arcs, depth, s, i, j);
    assert s[..j][i] == u;
  }

  lemma ShallowFirst(arcs: set<(Id, Id)>, depth: map<Id, nat>, s: seq<Id>, i: nat, j: nat)
    requires Layered(arcs, depth, s) && i < |s| && j < |s| && s[i] in depth && s[j] in depth
    requires depth[s[i]] < depth[s[j]]
    ensures i < j
  {
    hide HasDepth, Distinct, ToSet;
  }

  lemma ArcDeepens(arcs: set<(Id, Id)>, depth: map<Id, nat>, s: seq<Id>, v: Id, u: Id)
    requires Layered(arcs, depth, s) && PredecessorsIn(arcs, ToSet(s), ToSet(s))
    requires v in s && (u, v) in arcs
    ensures u in s && u in depth && v in depth && depth[u] < depth[v]
  {
    hide Distinct, Deep;
    assert v in ToSet(s);
    assert u in ToSet(s);
    DeepExtend(arcs, u, v, depth[u]);
  }

  /** The ids Kahn's loop emits are exactly those no cycle reaches. */
  lemma EmittedIffNotFromCycle(ids: set<Id>, arcs: set<(Id, Id)>, depth: map<Id, nat>, s: seq<Id>, v: Id)
    requires forall u, w :: (u, w) in arcs ==> u in ids && w in ids
    requires Layered(arcs, depth, s) && PredecessorsIn(arcs, ToSet(s), ToSet(s))
    requires forall x :: x in ids && x !in s ==> HasPredecessorIn(arcs, ids - ToSet(s), x)
    requires v in ids
    ensures v in s <==> !FromCycle(arcs, v)
  {
    if v in s {
      var rank: map<Id, int> := map x | x in depth :: depth[x];
      forall u, w | (u, w) in arcs && w in rank
        ensures u in rank && rank[u] < rank[w]
      {
        var j :| 0 <= j < |s| && s[j] == w;
        LayeredOrdersArcs(arcs, depth, s, j, u);
      }
      RankedNotFromCycle(arcs, rank, v);
    } else {
      ClosedUnderPredecessors(arcs, ids - ToSet(s), v);
    }
  }

  /** One more id enters the queue: its depth is one below the id that released it. */
  lemma Enqueue(arcs: set<(Id, Id)>, depth: map<Id, nat>, s: seq<Id>, done: set<Id>, u: Id, v: Id)
    requires Layered(arcs, depth, s)
    requires u in depth && v !in depth && (u, v) in arcs
    requires done <= depth.Keys && forall w :: (w, v) in arcs ==> w in done
    requires forall w :: w in done ==> depth[w] <= depth[u]
    requires forall w :: w in depth ==> depth[w] <= depth[u] + 1
    ensures Layered(arcs, depth[v := depth[u] + 1], s + [v])
  {
    hide HasDepth;
    DepthBelow(arcs, depth, u, v);
  }

  lemma RemainingIsCycleBound(ids: seq<Id>, arcs: set<(Id, Id)>, s: seq<Id>, remaining: seq<Id>)
    requires forall v :: v in ids ==> (v in s <==> !FromCycle(arcs, v))
    requires remaining == NotIn(ids, s)
    ensures remaining == CycleBound(ids, arcs)
    decreases |ids|
  {
    if ids != [] {
      RemainingIsCycleBound(ids[..|ids| - 1], arcs, s, NotIn(ids[..|ids| - 1], s));
    }
  }

  function NotIn(ids: seq<Id>, s: seq<Id>): seq<Id> {
    if ids == [] then []
    else NotIn(ids[..|ids| - 1], s) + if ids[|ids| - 1] !in s then [ids[|ids| - 1]] else []
  }

  /** The adjacency lists and in-degrees of the edges seen so far. */
  ghost predicate Built(known: set<Id>, edges: seq<Edge>, adj: map<Id, seq<Id>>, inDegree: map<Id, int>) {
    && adj.Keys == inDegree.Keys == known
    && (forall u :: u in adj ==> adj[u] == Neighbors(known, edges, u))
    && (forall v :: v in inDegree ==> inDegree[v] == Pending(known, edges, {}, v))
  }

  lemma OneMoreEdge(known: set<Id>, edges: seq<Edge>, e: Edge, u: Id)
    ensures Neighbors(known, edges + [e], u)
         == if e.source == u && u in known && e.target in known then Neighbors(known, edges, u) + [e.target]
            else Neighbors(known, edges, u)
    ensures Pending(known, edges + [e], {}, u)
         == Pending(known, edges, {}, u) + if e.source in known && e.target in known && e.target == u then 1 else 0
  {
    assert (edges + [e])[..|edges|] == edges;
  }

  lemma BuiltStep(known: set<Id>, edges: seq<Edge>, adj: map<Id, seq<Id>>, inDegree: map<Id, int>, e: Edge)
    requires Built(known, edges, adj, inDegree)
    ensures
      if e.source in adj && e.target in inDegree then
        Built(known, edges + [e], adj[e.source := adj[e.source] + [e.target]], inDegree[e.target := inDegree[e.target] + 1])
      else Built(known, edges + [e], adj, inDegree)
  {
    hide Neighbors, Pending;
    forall u
    {
      OneMoreEdge(known, edges, e, u);
    }
  }

  method BuildAdjacency(ids: seq<Id>, edges: seq<Edge>)
    returns (adj: map<Id, seq<Id>>, inDegree: map<Id, int>)
    ensures Built(ToSet(ids), edges, adj, inDegree)
  {
    adj := map x | x in ids :: [];
    inDegree := map x | x in ids :: 0;
    assert Built(ToSet(ids), [], adj, inDegree);
    hide Built;
    assert edges[..0] == [];
    for i := 0 to |edges|
      invariant Built(ToSet(ids), edges[..i], adj, inDegree)
    {
      var e := edges[i];
      assert edges[..i + 1] == edges[..i] + [e];
      BuiltStep(ToSet(ids), edges[..i], adj, inDegree, e);
      if e.source in adj && e.target in inDegree {
        adj := adj[e.source := adj[e.source] + [e.target]];
        inDegree := inDegree[e.target := inDegree[e.target] + 1];
      }
    }
    assert edges[..|edges|] == edges;
  }

  // ---------------------------------------------------------------- the order of release

  ghost predicate IsSource(arcs: set<(Id, Id)>, v: Id) {
    forall a :: a in arcs ==> a.1 != v
  }

  /** The ids nothing points at, in definition order. */
  ghost function Sources(ids: seq<Id>, arcs: set<(Id, Id)>): seq<Id> {
    if ids == [] then []
    else
      Sources(ids[..|ids| - 1], arcs)
      + if IsSource(arcs, ids[|ids| - 1]) then [ids[|ids| - 1]] else []
  }

  /** v's last predecessor stands at position i of s, and v's last mention in its list at position j. */
  ghost predicate ReleasedAt(known: set<Id>, edges: seq<Edge>, s: seq<Id>, v: Id, i: int, j: int) {
    && 0 <= i < |s|
    && var list := Neighbors(known, edges, s[i]);
    && 0 <= j < |list| && list[j] == v && (forall k :: j < k < |list| ==> list[k] != v)
    && forall u :: (u, v) in Arcs(known, edges) ==> u in s[..i + 1]
  }

  predicate Before(a: (int, int), b: (int, int)) {
    a.0 < b.0 || (a.0 == b.0 && a.1 < b.1)
  }

  /** The times at which the ids of s were queued: the sources at the start, the others when released. */
  ghost predicate ReleaseTimes(known: set<Id>, edges: seq<Edge>, sources: seq<Id>, s: seq<Id>, times: seq<(int, int)>) {
    && sources <= s && |times| == |s|
    && (forall p :: 0 <= p < |sources| ==> times[p] == (-1, p))
    && (forall p :: |sources| <= p < |s| ==> ReleasedAt(known, edges, s, s[p], times[p].0, times[p].1))
    && (forall p, q :: 0 <= p < q < |s| ==> Before(times[p], times[q]))
  }

  /** First in, first out: the sources in definition order, then every id in the order of its release. */
  ghost predicate FirstInFirstOut(known: set<Id>, edges: seq<Edge>, sources: seq<Id>, s: seq<Id>) {
    exists times :: ReleaseTimes(known, edges, sources, s, times)
  }

  /** Everything queued so far was queued before the given time. */
  ghost predicate Arrived(known: set<Id>, edges: seq<Edge>, sources: seq<Id>, s: seq<Id>, times: seq<(int, int)>,
                          now: (int, int)) {
    ReleaseTimes(known, edges, sources, s, times) && forall p :: 0 <= p < |times| ==> Before(times[p], now)
  }

  lemma SourcesArrived(known: set<Id>, edges: seq<Edge>, sources: seq<Id>) returns (times: seq<(int, int)>)
    ensures Arrived(known, edges, sources, sources, times, (0, 0))
  {
    times := seq(|sources|, p => (-1, p));
  }

  lemma ArrivedPush(known: set<Id>, edges: seq<Edge>, sources: seq<Id>, s: seq<Id>, times: seq<(int, int)>,
                    i: int, j: int, v: Id)
    requires Arrived(known, edges, sources, s, times, (i, j)) && ReleasedAt(known, edges, s, v, i, j)
    ensures Arrived(known, edges, sources, s + [v], times + [(i, j)], (i, j + 1))
  {
    var s', times' := s + [v], times + [(i, j)];
    forall p | 0 <= p < |s'|
      ensures p >= |sources| ==> ReleasedAt(known, edges, s', s'[p], times'[p].0, times'[p].1)
    {
      if p == |s| {
        ReleasedAtExtends(known, edges, s, v, v, i, j);
      } else if p >= |sources| {
        ReleasedAtExtends(known, edges, s, v, s[p], times[p].0, times[p].1);
      }
    }
    hide ReleasedAt;
  }

  lemma ReleasedAtExtends(known: set<Id>, edges: seq<Edge>, s: seq<Id>, x: Id, v: Id, i: int, j: int)
    requires ReleasedAt(known, edges, s, v, i, j)
    ensures ReleasedAt(known, edges, s + [x], v, i, j)
  {
    assert (s + [x])[..i + 1] == s[..i + 1];
  }

  lemma ArrivedLater(known: set<Id>, edges: seq<Edge>, sources: seq<Id>, s: seq<Id>, times: seq<(int, int)>,
                     now: (int, int), later: (int, int))
    requires Arrived(known, edges, sources, s, times, now) && Before(now, later)
    ensures Arrived(known, edges, sources, s, times, later)
  {
    hide ReleaseTimes;
  }

  /** While the list of `node` is walked, position j is where v's last predecessor lets it go. */
  lemma JustReleased(known: set<Id>, edges: seq<Edge>, sources: seq<Id>, result: seq<Id>, queue: seq<Id>,
                     times: seq<(int, int)>, node: Id, neighbors: seq<Id>, j: nat)
    requires result != [] && result[|result| - 1] == node && neighbors == Neighbors(known, edges, node) && j < |neighbors|
    requires Arrived(known, edges, sources, result + queue, times, (|result| - 1, j))
    requires forall k :: j < k < |neighbors| ==> neighbors[k] != neighbors[j]
    requires forall u :: (u, neighbors[j]) in Arcs(known, edges) ==> u in ToSet(result)
    ensures Arrived(known, edges, sources, result + (queue + [neighbors[j]]), times + [(|result| - 1, j)], (|result| - 1, j + 1))
  {
    var s, i := result + queue, |result| - 1;
    hide Arrived, Arcs, Neighbors;
    assert s[..i + 1] == result && s[i] == node;
    assert ReleasedAt(known, edges, s, neighbors[j], i, j);
    ArrivedPush(known, edges, sources, s, times, i, j, neighbors[j]);
    assert s + [neighbors[j]] == result + (queue + [neighbors[j]]);
  }

  /** The queue opens with the ids nothing points at, all at depth 0. */
  ghost predicate Opening(known: set<Id>, edges: seq<Edge>, inDegree: map<Id, int>, seen: seq<Id>,
                          queue: seq<Id>, depth: map<Id, nat>) {
    && Layered(Arcs(known, edges), depth, queue)
    && (forall v :: v in seen ==> v in inDegree && (inDegree[v] == 0 <==> v in depth))
    && (forall v :: v in depth ==> v in seen && depth[v] == 0)
  }

  lemma OpeningStep(known: set<Id>, edges: seq<Edge>, inDegree: map<Id, int>, seen: seq<Id>,
                    queue: seq<Id>, depth: map<Id, nat>, v: Id)
    requires Opening(known, edges, inDegree, seen, queue, depth)
    requires v !in seen && v in inDegree && inDegree[v] == Pending(known, edges, {}, v)
    ensures
      if inDegree[v] == 0 then Opening(known, edges, inDegree, seen + [v], queue + [v], depth[v := 0])
      else Opening(known, edges, inDegree, seen + [v], queue, depth)
  {
    PendingZero(known, edges, {}, v);
    hide Arcs;
    if inDegree[v] == 0 {
      SourceDepth(Arcs(known, edges), v);
    }
    hide HasDepth;
  }

  lemma NothingOpened(known: set<Id>, edges: seq<Edge>, inDegree: map<Id, int>)
    ensures Opening(known, edges, inDegree, [], [], map[])
  {
  }

  method InitialQueue(ids: seq<Id>, ghost edges: seq<Edge>, inDegree: map<Id, int>)
    returns (queue: seq<Id>, ghost depth: map<Id, nat>)
    requires Distinct(ids)
    requires inDegree.Keys == ToSet(ids)
    requires forall v :: v in inDegree ==> inDegree[v] == Pending(ToSet(ids), edges, {}, v)
    ensures queue == Sources(ids, Arcs(ToSet(ids), edges))
    ensures Running(ToSet(ids), edges, inDegree, [], queue, depth)
  {
    hide Opening, Pending, Running, Arcs, Sources;
    queue, depth := [], map[];
    NothingOpened(ToSet(ids), edges, inDegree);
    NoSources(Arcs(ToSet(ids), edges));
    for i := 0 to |ids|
      invariant queue == Sources(ids[..i], Arcs(ToSet(ids), edges))
      invariant Opening(ToSet(ids), edges, inDegree, ids[..i], queue, depth)
    {
      var v := ids[i];
      OpeningStep(ToSet(ids), edges, inDegree, ids[..i], queue, depth, v);
      assert ids[..i + 1] == ids[..i] + [v];
      SourcesStep(ToSet(ids), edges, ids[..i], v);
      if inDegree[v] == 0 {
        queue, depth := queue + [v], depth[v := 0];
      }
    }
    assert ids[..|ids|] == ids;
    Start(ids, edges, inDegree, queue, depth);
  }

  lemma NoSources(arcs: set<(Id, Id)>)
    ensures Sources([], arcs) == []
  {
  }

  lemma SourcesStep(known: set<Id>, edges: seq<Edge>, seen: seq<Id>, v: Id)
    ensures Sources(seen + [v], Arcs(known, edges))
         == Sources(seen, Arcs(known, edges)) + if Pending(known, edges, {}, v) == 0 then [v] else []
  {
    hide Arcs;
    PendingZero(known, edges, {}, v);
    assert IsSource(Arcs(known, edges), v) <==> forall u :: (u, v) in Arcs(known, edges) ==> u in {};
    assert (seen + [v])[..|seen|] == seen;
  }

  /** Kahn's bookkeeping: the recorded in-degrees count the arcs from ids not yet done,
      and the ids whose count reached zero are exactly those emitted or queued. */
  ghost predicate Counted(known: set<Id>, edges: seq<Edge>, inDegree: map<Id, int>, done: set<Id>, depth: map<Id, nat>) {
    && inDegree.Keys == known
    && depth.Keys <= known
    && (forall v :: v in known ==> inDegree[v] == Pending(known, edges, done, v))
    && (forall v :: v in known ==> (inDegree[v] == 0 <==> v in depth))
  }

  lemma CountedPredecessors(known: set<Id>, edges: seq<Edge>, inDegree: map<Id, int>, done: set<Id>, depth: map<Id, nat>)
    requires Counted(known, edges, inDegree, done, depth)
    ensures PredecessorsIn(Arcs(known, edges), depth.Keys, done)
    ensures forall x :: x in known && x !in depth ==> HasPredecessorIn(Arcs(known, edges), known - done, x)
  {
    forall x | x in known
      ensures x in depth ==> forall u :: (u, x) in Arcs(known, edges) ==> u in done
      ensures x !in depth ==> HasPredecessorIn(Arcs(known, edges), known - done, x)
    {
      PendingZero(known, edges, done, x);
    }
  }

  /** Emitting `node` releases the neighbours it was the last to hold back. */
  method Release(ghost known: set<Id>, ghost edges: seq<Edge>, ghost done: set<Id>, ghost node: Id, neighbors: seq<Id>,
                 inDegree0: map<Id, int>, ghost result: seq<Id>, queue0: seq<Id>, ghost depth0: map<Id, nat>,
                 ghost sources: seq<Id>, ghost times0: seq<(int, int)>)
    returns (inDegree: map<Id, int>, queue: seq<Id>, ghost depth: map<Id, nat>, ghost times: seq<(int, int)>)
    requires Counted(known, edges, inDegree0, done, depth0)
    requires node in depth0 && node !in done && done <= depth0.Keys
    requires ToSet(result) == done + {node}
    requires Layered(Arcs(known, edges), depth0, result + queue0)
    requires neighbors == Neighbors(known, edges, node)
    requires node in known
    requires forall w :: w in done ==> depth0[w] <= depth0[node]
    requires Grown(depth0, depth0, depth0[node] + 1)
    requires result != [] && result[|result| - 1] == node
    requires Arrived(known, edges, sources, result + queue0, times0, (|result| - 1, 0))
    ensures queue0 <= queue && inDegree.Keys == known
    ensures forall v :: v in known ==> inDegree[v] == Pending(known, edges, done + {node}, v)
    ensures Counted(known, edges, inDegree, done + {node}, depth)
    ensures Layered(Arcs(known, edges), depth, result + queue)
    ensures Grown(depth0, depth, depth0[node] + 1)
    ensures Arrived(known, edges, sources, result + queue, times, (|result|, 0))
  {
    hide *;
    ghost var arcs := Arcs(known, edges);
    inDegree, queue, depth, times := inDegree0, queue0, depth0, times0;
    NothingReleased(known, edges, inDegree, done, depth);
    for j := 0 to |neighbors|
      invariant Releasing(known, edges, done, neighbors[..j], inDegree, depth)
      invariant queue0 <= queue
      invariant Grown(depth0, depth, depth0[node] + 1)
      invariant Layered(arcs, depth, result + queue)
      invariant Arrived(known, edges, sources, result + queue, times, (|result| - 1, j))
    {
      var v := neighbors[j];
      DecrementStep(known, edges, done, node, neighbors, j, inDegree, depth, depth0[node] + 1);
      inDegree := inDegree[v := inDegree[v] - 1];
      if inDegree[v] == 0 {
        EnqueueReleased(arcs, depth0, depth, result, queue, done, node, v);
        JustReleased(known, edges, sources, result, queue, times, node, neighbors, j);
        queue, depth, times := queue + [v], depth[v := depth0[node] + 1], times + [(|result| - 1, j)];
      } else {
        Tick(known, edges, sources, result + queue, times, |result| - 1, j);
      }
    }
    NextRound(known, edges, sources, result + queue, times, |result| - 1, |neighbors|);
    assert neighbors[..|neighbors|] == neighbors;
    AllReleased(known, edges, done, node, inDegree, depth);
  }

  lemma Tick(known: set<Id>, edges: seq<Edge>, sources: seq<Id>, s: seq<Id>, times: seq<(int, int)>, i: int, j: int)
    requires Arrived(known, edges, sources, s, times, (i, j))
    ensures Arrived(known, edges, sources, s, times, (i, j + 1))
  {
    hide Arrived;
    ArrivedLater(known, edges, sources, s, times, (i, j), (i, j + 1));
  }

  lemma NextRound(known: set<Id>, edges: seq<Edge>, sources: seq<Id>, s: seq<Id>, times: seq<(int, int)>, i: int, j: int)
    requires Arrived(known, edges, sources, s, times, (i, j))
    ensures Arrived(known, edges, sources, s, times, (i + 1, 0))
  {
    hide Arrived;
    ArrivedLater(known, edges, sources, s, times, (i, j), (i + 1, 0));
  }

  /** Kahn's bookkeeping in the middle of a release: the decrements made so far are still owed to `Pending`. */
  ghost predicate Releasing(known: set<Id>, edges: seq<Edge>, done: set<Id>, seen: seq<Id>,
                            inDegree: map<Id, int>, depth: map<Id, nat>) {
    && inDegree.Keys == known
    && depth.Keys <= known
    && (forall v :: v in known ==> inDegree[v] == Pending(known, edges, done, v) - Times(seen, v))
    && (forall v :: v in known ==> (inDegree[v] == 0 <==> v in depth))
  }

  ghost predicate Grown(before: map<Id, nat>, depth: map<Id, nat>, bound: nat) {
    && (forall w :: w in before ==> w in depth && depth[w] == before[w])
    && (forall w :: w in depth ==> depth[w] <= bound)
  }

  lemma DecrementStep(known: set<Id>, edges: seq<Edge>, done: set<Id>, node: Id, neighbors: seq<Id>, j: nat,
                      inDegree: map<Id, int>, depth: map<Id, nat>, d: nat)
    requires node !in done && neighbors == Neighbors(known, edges, node) && j < |neighbors|
    requires Releasing(known, edges, done, neighbors[..j], inDegree, depth)
    ensures neighbors[j] in known && neighbors[j] in inDegree && neighbors[j] !in depth && (node, neighbors[j]) in Arcs(known, edges)
    ensures
      var v := neighbors[j];
      Releasing(known, edges, done, neighbors[..j + 1], inDegree[v := inDegree[v] - 1],
                if inDegree[v] == 1 then depth[v := d] else depth)
    ensures inDegree[neighbors[j]] == 1 ==>
      && (forall u :: (u, neighbors[j]) in Arcs(known, edges) ==> u in done + {node})
      && forall k :: j < k < |neighbors| ==> neighbors[k] != neighbors[j]
  {
    hide *;
    NeighborIsKnown(known, edges, node, neighbors, j);
    StillPending(known, edges, done, node, neighbors, j);
    assert neighbors[..j + 1] == neighbors[..j] + [neighbors[j]];
    ReleasingStep(known, edges, done, neighbors[..j], neighbors[j], inDegree, depth, d);
    if inDegree[neighbors[j]] == 1 {
      PendingZero(known, edges, done + {node}, neighbors[j]);
      NoLaterMention(known, edges, done, node, neighbors, j);
    }
  }

  lemma NeighborIsKnown(known: set<Id>, edges: seq<Edge>, node: Id, neighbors: seq<Id>, j: nat)
    requires neighbors == Neighbors(known, edges, node) && j < |neighbors|
    ensures neighbors[j] in known && (node, neighbors[j]) in Arcs(known, edges)
  {
    NeighborsAreArcs(known, edges, node);
    assert neighbors[j] in neighbors;
    ArcEnds(known, edges, node, neighbors[j]);
  }

  /** The decrement that exhausts v's count is for its last mention in the list. */
  lemma NoLaterMention(known: set<Id>, edges: seq<Edge>, done: set<Id>, node: Id, neighbors: seq<Id>, j: nat)
    requires node !in done && neighbors == Neighbors(known, edges, node) && j < |neighbors|
    requires Pending(known, edges, done, neighbors[j]) == Times(neighbors[..j], neighbors[j]) + 1
    ensures forall k :: j < k < |neighbors| ==> neighbors[k] != neighbors[j]
  {
    PendingWithoutOne(known, edges, done, node, neighbors[j]);
    hide Pending, Neighbors;
    CountedLast(neighbors, j);
  }

  lemma CountedLast(s: seq<Id>, j: nat)
    requires j < |s| && Times(s, s[j]) <= Times(s[..j], s[j]) + 1
    ensures forall k :: j < k < |s| ==> s[k] != s[j]
  {
    var rest := s[j + 1..];
    assert s == s[..j] + [s[j]] + rest;
    assert multiset(rest)[s[j]] == 0;
    forall k | j < k < |s|
      ensures s[k] != s[j]
    {
      assert s[k] == rest[k - j - 1] && s[k] in multiset(rest);
    }
  }

  lemma ReleasingStep(known: set<Id>, edges: seq<Edge>, done: set<Id>, seen: seq<Id>, v: Id,
                      inDegree: map<Id, int>, depth: map<Id, nat>, d: nat)
    requires Releasing(known, edges, done, seen, inDegree, depth) && v in known
    requires Pending(known, edges, done, v) - Times(seen, v) >= 1
    ensures v in inDegree && v !in depth && inDegree[v] == Pending(known, edges, done, v) - Times(seen, v)
    ensures Releasing(known, edges, done, seen + [v], inDegree[v := inDegree[v] - 1],
                      if inDegree[v] == 1 then depth[v := d] else depth)
  {
    hide Pending, Times;
    SeenOneMore(seen, v);
    var fewer := inDegree[v := inDegree[v] - 1];
    assert fewer.Keys == known;
    forall x | x in known
      ensures fewer[x] == Pending(known, edges, done, x) - Times(seen + [v], x)
    {
      assert fewer[x] == inDegree[x] - if x == v then 1 else 0;
    }
  }

  lemma ArcEnds(known: set<Id>, edges: seq<Edge>, u: Id, v: Id)
    requires (u, v) in Arcs(known, edges)
    ensures u in known && v in known
  {
  }

  lemma SeenOneMore(seen: seq<Id>, v: Id)
    ensures forall x :: Times(seen + [v], x) == Times(seen, x) + if x == v then 1 else 0
  {
  }

  lemma EnqueueReleased(arcs: set<(Id, Id)>, depth0: map<Id, nat>, depth: map<Id, nat>,
                        result: seq<Id>, queue: seq<Id>, done: set<Id>, node: Id, v: Id)
    requires node in depth0 && done <= depth0.Keys
    requires forall w :: w in done ==> depth0[w] <= depth0[node]
    requires Grown(depth0, depth, depth0[node] + 1)
    requires Layered(arcs, depth, result + queue)
    requires v !in depth && (node, v) in arcs
    requires forall u :: (u, v) in arcs ==> u in done + {node}
    ensures Layered(arcs, depth[v := depth0[node] + 1], result + (queue + [v]))
    ensures Grown(depth0, depth[v := depth0[node] + 1], depth0[node] + 1)
  {
    hide HasDepth, Layered;
    Enqueue(arcs, depth, result + queue, done + {node}, node, v);
    assert result + queue + [v] == result + (queue + [v]);
  }

  lemma NothingReleased(known: set<Id>, edges: seq<Edge>, inDegree: map<Id, int>, done: set<Id>, depth: map<Id, nat>)
    requires Counted(known, edges, inDegree, done, depth)
    ensures Releasing(known, edges, done, [], inDegree, depth)
  {
  }

  lemma AllReleased(known: set<Id>, edges: seq<Edge>, done: set<Id>, node: Id,
                    inDegree: map<Id, int>, depth: map<Id, nat>)
    requires node !in done
    requires Releasing(known, edges, done, Neighbors(known, edges, node), inDegree, depth)
    ensures Counted(known, edges, inDegree, done + {node}, depth) && inDegree.Keys == known
    ensures forall v :: v in known ==> inDegree[v] == Pending(known, edges, done + {node}, v)
  {
    forall v | v in known
      ensures inDegree[v] == Pending(known, edges, done + {node}, v)
    {
      PendingWithoutOne(known, edges, done, node, v);
    }
  }

  lemma CountedOnceMore(s: seq<Id>, j: nat)
    requires j < |s|
    ensures Times(s[..j], s[j]) + 1 <= Times(s, s[j])
  {
    assert s == s[..j] + [s[j]] + s[j + 1..];
  }

  lemma StillPending(known: set<Id>, edges: seq<Edge>, done: set<Id>, node: Id, neighbors: seq<Id>, j: nat)
    requires node !in done && neighbors == Neighbors(known, edges, node) && j < |neighbors|
    ensures Pending(known, edges, done, neighbors[j]) - Times(neighbors[..j], neighbors[j]) >= 1
    ensures Pending(known, edges, done, neighbors[j]) - Times(neighbors[..j], neighbors[j]) - 1
         >= Pending(known, edges, done + {node}, neighbors[j])
  {
    PendingWithoutOne(known, edges, done, node, neighbors[j]);
    hide Pending, Neighbors, Times;
    CountedOnceMore(neighbors, j);
  }

  lemma FallbackSuffix(ids: seq<Id>, arcs: set<(Id, Id)>, result: seq<Id>, order: seq<Id>)
    requires Distinct(ids) && Distinct(result) && ToSet(result) <= ToSet(ids)
    requires forall v :: v in ids ==> (v in result <==> !FromCycle(arcs, v))
    requires order == if |result| < |ids| then result + NotIn(ids, result) else result
    ensures order == result + CycleBound(ids, arcs)
    ensures multiset(order) == multiset(ids)
  {
    var remaining := NotIn(ids, result);
    PartitionMultiset(ids, result);
    RemainingIsCycleBound(ids, arcs, result, remaining);
    assert multiset(result + remaining) == multiset(ids);
    assert |multiset(result + remaining)| == |result| + |remaining|;
    assert |multiset(ids)| == |ids|;
    if |result| >= |ids| {
      assert remaining == [];
    }
  }

  lemma PartitionMultiset(ids: seq<Id>, s: seq<Id>)
    requires Distinct(ids) && Distinct(s) && ToSet(s) <= ToSet(ids)
    ensures multiset(s) + multiset(NotIn(ids, s)) == multiset(ids)
  {
    MultisetOfDistinct(ids);
    MultisetOfDistinct(s);
    NotInMultiset(ids, s);
    forall x
      ensures (multiset(s) + multiset(NotIn(ids, s)))[x] == multiset(ids)[x]
    {
      assert x in ToSet(s) ==> x in ToSet(ids);
    }
  }

  lemma {:induction false} NotInMultiset(ids: seq<Id>, s: seq<Id>)
    ensures forall x :: multiset(NotIn(ids, s))[x] == if x in s then 0 else multiset(ids)[x]
    decreases |ids|
  {
    if ids != [] {
      NotInMultiset(ids[..|ids| - 1], s);
      assert ids == ids[..|ids| - 1] + [ids[|ids| - 1]];
    }
  }

  /** What Kahn's loop keeps: in-degrees counted, emitted and queued ids in depth order,
      and the queue spanning at most two consecutive layers. */
  ghost predicate Running(known: set<Id>, edges: seq<Edge>, inDegree: map<Id, int>,
                          result: seq<Id>, queue: seq<Id>, depth: map<Id, nat>) {
    && Counted(known, edges, inDegree, ToSet(result), depth)
    && Layered(Arcs(known, edges), depth, result + queue)
    && (queue != [] ==> queue[0] in depth && Grown(depth, depth, depth[queue[0]] + 1))
  }

  lemma SeenSet(ids: seq<Id>, inDegree: map<Id, int>, depth: map<Id, nat>)
    requires forall v :: v in ids ==> v in inDegree && (inDegree[v] == 0 <==> v in depth)
    requires forall v :: v in depth ==> v in ids && depth[v] == 0
    ensures depth.Keys <= ToSet(ids) && forall v :: v in ToSet(ids) ==> v in inDegree && (inDegree[v] == 0 <==> v in depth)
  {
  }

  lemma Start(ids: seq<Id>, edges: seq<Edge>, inDegree: map<Id, int>, queue: seq<Id>, depth: map<Id, nat>)
    requires inDegree.Keys == ToSet(ids)
    requires forall v :: v in inDegree ==> inDegree[v] == Pending(ToSet(ids), edges, {}, v)
    requires Opening(ToSet(ids), edges, inDegree, ids, queue, depth)
    ensures Running(ToSet(ids), edges, inDegree, [], queue, depth)
  {
    hide HasDepth, Pending, Arcs;
    assert [] + queue == queue && ToSet<Id>([]) == {};
    SeenSet(ids, inDegree, depth);
    hide Distinct;
    if queue != [] {
      assert queue[0] in ToSet(queue);
    }
  }

  lemma Head(known: set<Id>, edges: seq<Edge>, inDegree: map<Id, int>,
             result: seq<Id>, queue: seq<Id>, depth: map<Id, nat>)
    requires Running(known, edges, inDegree, result, queue, depth) && queue != []
    ensures queue[0] in known && queue[0] in depth && queue[0] !in ToSet(result)
    ensures ToSet(result) <= depth.Keys && Counted(known, edges, inDegree, ToSet(result), depth)
    ensures forall w :: w in ToSet(result) ==> depth[w] <= depth[queue[0]]
    ensures ToSet(result + [queue[0]]) == ToSet(result) + {queue[0]}
    ensures Layered(Arcs(known, edges), depth, result + [queue[0]] + queue[1..])
    ensures Grown(depth, depth, depth[queue[0]] + 1)
  {
    hide HasDepth, Arcs, Pending;
    var s := result + queue;
    assert s == result + [queue[0]] + queue[1..];
    assert s[|result|] == queue[0];
    forall w | w in result
      ensures w != queue[0] && w in depth && depth[w] <= depth[queue[0]]
    {
      var k :| 0 <= k < |result| && result[k] == w;
      assert s[k] == w && w in ToSet(s);
    }
  }

  lemma NextHead(known: set<Id>, edges: seq<Edge>, inDegree: map<Id, int>, result: seq<Id>, node: Id,
                 queue: seq<Id>, depth0: map<Id, nat>, depth: map<Id, nat>)
    requires Counted(known, edges, inDegree, ToSet(result + [node]), depth)
    requires Layered(Arcs(known, edges), depth, result + [node] + queue)
    requires node in depth0 && Grown(depth0, depth, depth0[node] + 1)
    ensures Running(known, edges, inDegree, result + [node], queue, depth)
  {
    hide HasDepth, Counted, Arcs;
    if queue != [] {
      var s := result + [node] + queue;
      assert s[|result|] == node && s[|result| + 1] == queue[0];
      assert queue[0] in ToSet(s);
    }
  }

  lemma Drained(known: set<Id>, edges: seq<Edge>, inDegree: map<Id, int>, result: seq<Id>, depth: map<Id, nat>)
    requires Running(known, edges, inDegree, result, [], depth)
    ensures Emitted(known, Arcs(known, edges), result)
  {
    hide *;
    NothingQueued(known, edges, inDegree, result, depth);
    EmittedExactly(known, edges, result, depth);
    LayeredIsTopological(Arcs(known, edges), depth, result);
    EmittedIntro(known, Arcs(known, edges), result, depth);
  }

  lemma EmittedIntro(known: set<Id>, arcs: set<(Id, Id)>, s: seq<Id>, depth: map<Id, nat>)
    requires ToSet(s) <= known && Topological(arcs, s) && Layered(arcs, depth, s)
    requires forall v :: v in known ==> (v in s <==> !FromCycle(arcs, v))
    ensures Emitted(known, arcs, s)
  {
    hide Topological, Layered, FromCycle;
  }

  lemma EmittedExactly(known: set<Id>, edges: seq<Edge>, s: seq<Id>, depth: map<Id, nat>)
    requires Layered(Arcs(known, edges), depth, s) && PredecessorsIn(Arcs(known, edges), ToSet(s), ToSet(s))
    requires forall x :: x in known && x !in s ==> HasPredecessorIn(Arcs(known, edges), known - ToSet(s), x)
    ensures forall v :: v in known ==> (v in s <==> !FromCycle(Arcs(known, edges), v))
  {
    hide Layered, PredecessorsIn, HasPredecessorIn, FromCycle, ToSet;
    forall v | v in known
      ensures v in s <==> !FromCycle(Arcs(known, edges), v)
    {
      EmittedIffNotFromCycle(known, Arcs(known, edges), depth, s, v);
    }
  }

  lemma LayeredIsTopological(arcs: set<(Id, Id)>, depth: map<Id, nat>, s: seq<Id>)
    requires Layered(arcs, depth, s) && PredecessorsIn(arcs, ToSet(s), ToSet(s))
    ensures Topological(arcs, s)
  {
    hide Layered, PredecessorsIn;
    forall j, u | 0 <= j < |s| && (u, s[j]) in arcs
      ensures u in s[..j]
    {
      LayeredOrdersArcs(arcs, depth, s, j, u);
    }
  }

  lemma NothingQueued(known: set<Id>, edges: seq<Edge>, inDegree: map<Id, int>, result: seq<Id>, depth: map<Id, nat>)
    requires Running(known, edges, inDegree, result, [], depth)
    ensures Layered(Arcs(known, edges), depth, result) && ToSet(result) <= known
    ensures PredecessorsIn(Arcs(known, edges), ToSet(result), ToSet(result))
    ensures forall x :: x in known && x !in result ==> HasPredecessorIn(Arcs(known, edges), known - ToSet(result), x)
  {
    hide HasDepth, Arcs, Pending, HasPredecessorIn;
    assert result + [] == result;
    CountedPredecessors(known, edges, inDegree, ToSet(result), depth);
    assert depth.Keys == ToSet(result);
  }

  /** Exactly the ids no cycle reaches, each after all its predecessors and layer by layer. */
  ghost predicate Emitted(known: set<Id>, arcs: set<(Id, Id)>, s: seq<Id>) {
    && ToSet(s) <= known
    && (forall v :: v in known ==> (v in s <==> !FromCycle(arcs, v)))
    && Topological(arcs, s)
    && LayerByLayer(arcs, s)
  }

  /** No id stands before one of smaller longest-path depth. */
  ghost predicate LayerByLayer(arcs: set<(Id, Id)>, s: seq<Id>) {
    exists depth :: Layered(arcs, depth, s)
  }

  /** Every predecessor stands before its successor. */
  ghost predicate Topological(arcs: set<(Id, Id)>, s: seq<Id>) {
    forall j, u :: 0 <= j < |s| && (u, s[j]) in arcs ==> u in s[..j]
  }

  /** The order is what Kahn's loop emits, followed by the cycle-bound ids in definition order. */
  ghost predicate Continues(ids: seq<Id>, edges: seq<Edge>, emitted: seq<Id>, order: seq<Id>) {
    var arcs := Arcs(ToSet(ids), edges);
    && order == emitted + CycleBound(ids, arcs)
    && Emitted(ToSet(ids), arcs, emitted)
    && FirstInFirstOut(ToSet(ids), edges, Sources(ids, arcs), emitted)
  }

  /** First the ids no cycle reaches, each after all its predecessors, layer by layer in longest-path depth and
      in the order of their release; then the others in definition order. */
  ghost predicate Scheduled(ids: seq<Id>, edges: seq<Edge>, order: seq<Id>) {
    exists emitted :: Continues(ids, edges, emitted, order)
  }

  /** A schedule lists every id exactly once. */
  lemma ScheduledIsPermutation(ids: seq<Id>, edges: seq<Edge>, order: seq<Id>)
    requires Distinct(ids) && Scheduled(ids, edges, order)
    ensures multiset(order) == multiset(ids)
  {
    var arcs := Arcs(ToSet(ids), edges);
    var emitted :| Continues(ids, edges, emitted, order);
    hide FirstInFirstOut, Topological, FromCycle;
    LayeredIsDistinct(arcs, emitted);
    PartitionMultiset(ids, emitted);
    RemainingIsCycleBound(ids, arcs, emitted, NotIn(ids, emitted));
    hide LayerByLayer, CycleBound;
    assert multiset(order) == multiset(emitted) + multiset(NotIn(ids, emitted));
  }

  method KahnLoop(ghost known: set<Id>, ghost edges: seq<Edge>, adj: map<Id, seq<Id>>,
                  inDegree0: map<Id, int>, queue0: seq<Id>, ghost depth0: map<Id, nat>)
    returns (result: seq<Id>)
    requires Running(known, edges, inDegree0, [], queue0, depth0)
    requires adj.Keys == known && forall u :: u in adj ==> adj[u] == Neighbors(known, edges, u)
    ensures Emitted(known, Arcs(known, edges), result)
    ensures FirstInFirstOut(known, edges, queue0, result)
  {
    hide *;
    var queue, inDegree := queue0, inDegree0;
    ghost var depth := depth0;
    result := [];
    ghost var times := SourcesArrived(known, edges, queue0);
    assert [] + queue == queue;
    while queue != []
      invariant Running(known, edges, inDegree, result, queue, depth)
      invariant Arrived(known, edges, queue0, result + queue, times, (|result|, 0))
      decreases known - ToSet(result)
    {
      var node := queue[0];
      ghost var before := depth;
      Head(known, edges, inDegree, result, queue, depth);
      assert result + [node] + queue[1..] == result + queue;
      inDegree, queue, depth, times :=
        Release(known, edges, ToSet(result), node, adj[node], inDegree, result + [node], queue[1..], depth, queue0, times);
      NextHead(known, edges, inDegree, result, node, queue, before, depth);
      result := result + [node];
    }
    Drained(known, edges, inDegree, result, depth);
    assert result + [] == result;
    AllArrived(known, edges, queue0, result, times);
  }

  lemma AllArrived(known: set<Id>, edges: seq<Edge>, sources: seq<Id>, s: seq<Id>, times: seq<(int, int)>)
    requires Arrived(known, edges, sources, s, times, (|s|, 0))
    ensures FirstInFirstOut(known, edges, sources, s)
  {
    hide ReleaseTimes;
  }

  /** Kahn's sort. `CycleBound` is what the loop cannot emit: it is appended in definition order. */
  method TopologicalSort(ids: seq<Id>, edges: seq<Edge>) returns (order: seq<Id>)
    requires Distinct(ids)
    ensures Scheduled(ids, edges, order)
  {
    hide Running, Built, Arcs, Topological, FromCycle, FirstInFirstOut, Sources;
    var adj, inDegree := BuildAdjacency(ids, edges);
    BuiltCounts(ToSet(ids), edges, adj, inDegree);
    var queue;
    ghost var depth;
    queue, depth := InitialQueue(ids, edges, inDegree);
    var result := KahnLoop(ToSet(ids), edges, adj, inDegree, queue, depth);
    LayeredIsDistinct(Arcs(ToSet(ids), edges), result);
    order := result;
    if |result| < |ids| {
      order := result + NotIn(ids, result);
    }
    FallbackSuffix(ids, Arcs(ToSet(ids), edges), result, order);
    assert Continues(ids, edges, result, order);
  }

  lemma BuiltCounts(known: set<Id>, edges: seq<Edge>, adj: map<Id, seq<Id>>, inDegree: map<Id, int>)
    requires Built(known, edges, adj, inDegree)
    ensures adj.Keys == known && forall u :: u in adj ==> adj[u] == Neighbors(known, edges, u)
    ensures inDegree.Keys == known && forall v :: v in inDegree ==> inDegree[v] == Pending(known, edges, {}, v)
  {
  }

  lemma LayeredIsDistinct(arcs: set<(Id, Id)>, s: seq<Id>)
    requires LayerByLayer(arcs, s)
    ensures Distinct(s)
  {
  }

  /** The definition-order fallback is taken exactly on graphs with a directed cycle. */
  lemma FallbackIffCyclic(ids: seq<Id>, edges: seq<Edge>)
    ensures CycleBound(ids, Arcs(ToSet(ids), edges)) != [] <==> Cyclic(Arcs(ToSet(ids), edges))
  {
    var arcs := Arcs(ToSet(ids), edges);
    CycleBoundMembers(ids, arcs);
    CyclicIffSomeFromCycle(arcs);
    if Cyclic(arcs) {
      var u, v :| (u, v) in arcs && FromCycle(arcs, u);
      assert u in ids;
    }
    if CycleBound(ids, arcs) != [] {
      assert CycleBound(ids, arcs)[0] in CycleBound(ids, arcs);
    }
  }

  /** The schedule respects every edge exactly when the graph has no directed cycle, which is
      what the builder's depth-first search tests. */
  lemma ScheduleTopologicalIffAcyclic(ids: seq<Id>, edges: seq<Edge>, order: seq<Id>)
    requires Distinct(ids) && Scheduled(ids, edges, order)
    ensures Topological(Arcs(ToSet(ids), edges), order) <==> !Cyclic(Arcs(ToSet(ids), edges))
    ensures !Cyclic(Arcs(ToSet(ids), edges)) ==> LayerByLayer(Arcs(ToSet(ids), edges), order)
  {
    var arcs := Arcs(ToSet(ids), edges);
    var prefix :| Continues(ids, edges, prefix, order);
    hide LayerByLayer, Arcs, FirstInFirstOut;
    FallbackIffCyclic(ids, edges);
    if Cyclic(arcs) {
      if Topological(arcs, order) {
        var v := CycleBound(ids, arcs)[0];
        CycleBoundMembers(ids, arcs);
        assert v in order;
        TopologicalNotFromCycle(arcs, order, v);
      }
    } else {
      assert order == prefix;
    }
  }

  lemma TopologicalNotFromCycle(arcs: set<(Id, Id)>, s: seq<Id>, v: Id)
    requires Topological(arcs, s) && v in s
    ensures !FromCycle(arcs, v)
  {
    var rank: map<Id, int> := map x | x in s :: FirstIndex(s, x);
    forall u, w | (u, w) in arcs && w in rank
      ensures u in rank && rank[u] < rank[w]
    {
      var j := FirstIndex(s, w);
      assert u in s[..j];
      var i :| 0 <= i < j && s[..j][i] == u;
      assert s[i] == u;
      FirstIndexLeast(s, u, i);
    }
    RankedNotFromCycle(arcs, rank, v);
  }

  ghost function FirstIndex(s: seq<Id>, x: Id): (i: nat)
    requires x in s
    ensures i < |s| && s[i] == x
  {
    if s[0] == x then 0 else 1 + FirstIndex(s[1..], x)
  }

  lemma {:induction false} FirstIndexLeast(s: seq<Id>, x: Id, i: nat)
    requires i < |s| && s[i] == x
    ensures x in s && FirstIndex(s, x) <= i
    decreases i
  {
    if s[0] != x {
      FirstIndexLeast(s[1..], x, i - 1);
    }
  }
}
