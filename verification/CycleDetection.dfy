/** The builder's three-colour depth-first search for directed cycles. */
module CycleDetection {
  import opened Graph

  datatype Color = White | Gray | Black

  /** Every edge target of u in definition order, known or not; only known sources have a list. */
  function Targets(ids: set<Id>, edges: seq<Edge>, u: Id): seq<Id> {
    if edges == [] then []
    else
      var e := edges[|edges| - 1];
      Targets(ids, edges[..|edges| - 1], u) + if e.source == u && u in ids then [e.target] else []
  }

  lemma {:induction false} TargetsAreArcs(ids: set<Id>, edges: seq<Edge>, u: Id)
    ensures forall v :: v in Targets(ids, edges, u) && v in ids <==> (u, v) in Arcs(ids, edges)
    decreases |edges|
  {
    if edges != [] {
      var rest, e := edges[..|edges| - 1], edges[|edges| - 1];
      TargetsAreArcs(ids, rest, u);
      assert forall x :: x in edges <==> x in rest || x == e;
    }
  }

  /** The finished nodes, ranked in reverse order of finishing: successors finish first. */
  ghost predicate Finished(arcs: set<(Id, Id)>, rank: map<Id, int>) {
    && (forall u, v :: (u, v) in arcs && u in rank ==> v in rank && rank[u] < rank[v])
    && (forall v :: v in rank ==> rank[v] > -|rank|)
  }

  /** Gray nodes are the current path, black nodes are finished. */
  ghost predicate Consistent(ids: set<Id>, arcs: set<(Id, Id)>, color: map<Id, Color>,
                             path: seq<Id>, rank: map<Id, int>) {
    && color.Keys == ids
    && (path == [] || Walk(arcs, path))
    && (forall v :: v in ids ==> (color[v] == Gray <==> v in path))
    && (forall v :: v in ids ==> (color[v] == Black <==> v in rank))
    && rank.Keys <= ids
    && Finished(arcs, rank)
  }

  function Whites(color: map<Id, Color>): set<Id> {
    set v | v in color && color[v] == White
  }

  ghost predicate Extends(path: seq<Id>, arcs: set<(Id, Id)>, v: Id) {
    path == [] || (path[|path| - 1], v) in arcs
  }

  lemma Paint(ids: set<Id>, arcs: set<(Id, Id)>, color: map<Id, Color>, path: seq<Id>, rank: map<Id, int>, v: Id)
    requires Consistent(ids, arcs, color, path, rank)
    requires v in Whites(color) && Extends(path, arcs, v)
    ensures v in ids && v !in path
    ensures Consistent(ids, arcs, color[v := Gray], path + [v], rank)
    ensures Whites(color[v := Gray]) == Whites(color) - {v}
  {
    hide Finished;
  }

  /** A gray target closes a walk. */
  lemma BackEdge(ids: set<Id>, arcs: set<(Id, Id)>, color: map<Id, Color>, path: seq<Id>, rank: map<Id, int>, v: Id)
    requires Consistent(ids, arcs, color, path, rank)
    requires path != [] && (path[|path| - 1], v) in arcs
    requires v in color && color[v] == Gray
    ensures Cyclic(arcs)
  {
    hide Finished;
    var i :| 0 <= i < |path| && path[i] == v;
    assert ClosedWalk(arcs, path[i..] + [v]);
  }

  ghost predicate AllBlack(color: map<Id, Color>, vs: seq<Id>) {
    forall v :: v in vs && v in color ==> color[v] == Black
  }

  ghost predicate KeepsBlack(before: map<Id, Color>, after: map<Id, Color>) {
    forall v :: v in before && before[v] == Black ==> v in after && after[v] == Black
  }

  lemma FinishRank(arcs: set<(Id, Id)>, rank: map<Id, int>, v: Id)
    requires Finished(arcs, rank) && v !in rank
    requires forall w :: (v, w) in arcs ==> w in rank
    ensures Finished(arcs, rank[v := -|rank|])
  {
    var r := rank[v := -|rank|];
    assert r.Keys == rank.Keys + {v};
    assert |r.Keys| == |rank.Keys| + 1;
  }

  lemma PopPath(arcs: set<(Id, Id)>, path: seq<Id>, v: Id)
    requires Walk(arcs, path + [v])
    ensures path == [] || Walk(arcs, path)
    ensures forall w :: w in path + [v] <==> w in path || w == v
  {
    var p := path + [v];
    assert forall i :: 0 <= i < |path| ==> path[i] == p[i];
  }

  lemma Finish(ids: set<Id>, edges: seq<Edge>, color: map<Id, Color>, path: seq<Id>, rank: map<Id, int>, v: Id)
    requires Consistent(ids, Arcs(ids, edges), color, path + [v], rank)
    requires AllBlack(color, Targets(ids, edges, v))
    requires v in ids && v !in path
    ensures Consistent(ids, Arcs(ids, edges), color[v := Black], path, rank[v := -|rank|])
    ensures Whites(color[v := Black]) == Whites(color)
    ensures KeepsBlack(color, color[v := Black])
  {
    hide Finished, Walk, Arcs;
    TargetsAreArcs(ids, edges, v);
    PopPath(Arcs(ids, edges), path, v);
    assert color[v] == Gray && v !in rank;
    FinishRank(Arcs(ids, edges), rank, v);
  }

  lemma IsWhite(color: map<Id, Color>, v: Id)
    ensures v in Whites(color) <==> v in color && color[v] == White
  {
  }

  lemma Successor(ids: set<Id>, edges: seq<Edge>, u: Id, v: Id)
    requires v in Targets(ids, edges, u)
    ensures v in ids ==> (u, v) in Arcs(ids, edges)
  {
    TargetsAreArcs(ids, edges, u);
  }

  lemma OneMoreTarget(ids: set<Id>, edges: seq<Edge>, e: Edge, u: Id)
    ensures Targets(ids, edges + [e], u)
         == if e.source == u && u in ids then Targets(ids, edges, u) + [e.target] else Targets(ids, edges, u)
  {
    assert (edges + [e])[..|edges|] == edges;
  }

  method ForwardLists(nodeIds: seq<Id>, edges: seq<Edge>) returns (lists: map<Id, seq<Id>>)
    ensures lists.Keys == ToSet(nodeIds)
    ensures forall u :: u in lists ==> lists[u] == Targets(ToSet(nodeIds), edges, u)
  {
    lists := map x | x in nodeIds :: [];
    assert edges[..0] == [];
    for i := 0 to |edges|
      invariant lists.Keys == ToSet(nodeIds)
      invariant forall u :: u in lists ==> lists[u] == Targets(ToSet(nodeIds), edges[..i], u)
    {
      hide Targets;
      var e := edges[i];
      forall u {
        OneMoreTarget(ToSet(nodeIds), edges[..i], e, u);
      }
      assert edges[..i + 1] == edges[..i] + [e];
      if e.source in lists {
        lists := lists[e.source := lists[e.source] + [e.target]];
      }
    }
    assert edges[..|edges|] == edges;
  }

  lemma AllWhite(nodeIds: seq<Id>, edges: seq<Edge>, color: map<Id, Color>)
    requires color.Keys == ToSet(nodeIds) && forall v :: v in color ==> color[v] == White
    ensures Consistent(ToSet(nodeIds), Arcs(ToSet(nodeIds), edges), color, [], map[])
    ensures Whites(color) == ToSet(nodeIds)
  {
  }

  /** The closure of `hasCycle`: the adjacency lists and the colours its inner function shares. */
  class Search {
    const adj: map<Id, seq<Id>>
    var color: map<Id, Color>
    ghost const ids: set<Id>
    ghost const edges: seq<Edge>
    ghost var rank: map<Id, int>

    ghost predicate Valid(path: seq<Id>)
      reads this
    {
      && adj.Keys == ids
      && (forall u :: u in adj ==> adj[u] == Targets(ids, edges, u))
      && color.Keys == ids
      && Consistent(ids, Arcs(ids, edges), color, path, rank)
    }

    constructor (nodeIds: seq<Id>, es: seq<Edge>)
      ensures Valid([]) && ids == ToSet(nodeIds) && edges == es
      ensures Whites(color) == ToSet(nodeIds)
    {
      var lists := ForwardLists(nodeIds, es);
      adj, color := lists, map x | x in nodeIds :: White;
      ids, edges, rank := ToSet(nodeIds), es, map[];
      new;
      AllWhite(nodeIds, es, color);
    }

    /** Visits a white node; `path` is the gray path that leads to it. */
    method Dfs(nodeId: Id, ghost path: seq<Id>) returns (found: bool)
      requires Valid(path) && nodeId in Whites(color) && Extends(path, Arcs(ids, edges), nodeId)
      modifies this`color, this`rank
      ensures found ==> Cyclic(Arcs(ids, edges))
      ensures !found ==> Valid(path) && nodeId in color && color[nodeId] == Black
      ensures !found ==> KeepsBlack(old(color), color) && Whites(color) <= Whites(old(color)) - {nodeId}
      decreases Whites(color)
    {
      hide Consistent, Arcs, Targets, Cyclic, Whites;
      ghost var arcs := Arcs(ids, edges);
      IsWhite(color, nodeId);
      Paint(ids, arcs, color, path, rank, nodeId);
      color := color[nodeId := Gray];
      var neighbors := adj[nodeId];
      for j := 0 to |neighbors|
        invariant Valid(path + [nodeId])
        invariant AllBlack(color, neighbors[..j]) && KeepsBlack(old(color), color)
        invariant Whites(color) <= Whites(old(color)) - {nodeId}
      {
        var neighbor := neighbors[j];
        Successor(ids, edges, nodeId, neighbor);
        if neighbor in color && color[neighbor] == Gray {
          BackEdge(ids, arcs, color, path + [nodeId], rank, neighbor);
          return true;
        }
        if neighbor in color && color[neighbor] == White {
          IsWhite(color, neighbor);
          found := Dfs(neighbor, path + [nodeId]);
          if found {
            return true;
          }
        }
      }
      Finish(ids, edges, color, path, rank, nodeId);
      rank := rank[nodeId := -|rank|];
      color := color[nodeId := Black];
      found := false;
    }
  }

  /** Once every node is black the ranks order every arc. */
  lemma AllBlackAcyclic(ids: set<Id>, edges: seq<Edge>, color: map<Id, Color>, rank: map<Id, int>)
    requires Consistent(ids, Arcs(ids, edges), color, [], rank)
    requires forall v :: v in ids ==> color[v] == Black
    ensures !Cyclic(Arcs(ids, edges))
  {
    var arcs := Arcs(ids, edges);
    CyclicIffSomeFromCycle(arcs);
    if Cyclic(arcs) {
      var u, v :| (u, v) in arcs && FromCycle(arcs, u);
      RankedNotFromCycle(arcs, rank, u);
    }
  }

  method HasCycle(ids: seq<Id>, edges: seq<Edge>) returns (r: bool)
    ensures r <==> Cyclic(Arcs(ToSet(ids), edges))
  {
    hide Consistent, Arcs, Cyclic, Targets, Whites, KeepsBlack;
    var search := new Search(ids, edges);
    for i := 0 to |ids|
      invariant search.Valid([]) && search.ids == ToSet(ids) && search.edges == edges
      invariant AllBlack(search.color, ids[..i])
      invariant fresh(search)
    {
      ghost var before := search.color;
      NoneGray(ToSet(ids), Arcs(ToSet(ids), edges), search.color, search.rank);
      if search.color[ids[i]] == White {
        IsWhite(search.color, ids[i]);
        var found := search.Dfs(ids[i], []);
        if found {
          return true;
        }
        StillBlack(before, search.color, ids[..i]);
      }
      assert ids[..i + 1] == ids[..i] + [ids[i]];
    }
    assert ids[..|ids|] == ids;
    EndAllBlack(ids, edges, search.color, search.rank);
    r := false;
  }

  lemma StillBlack(before: map<Id, Color>, after: map<Id, Color>, vs: seq<Id>)
    requires AllBlack(before, vs) && KeepsBlack(before, after) && before.Keys == after.Keys
    ensures AllBlack(after, vs)
  {
  }

  lemma NoneGray(ids: set<Id>, arcs: set<(Id, Id)>, color: map<Id, Color>, rank: map<Id, int>)
    requires Consistent(ids, arcs, color, [], rank)
    ensures forall v :: v in color ==> color[v] != Gray
  {
  }

  lemma EndAllBlack(ids: seq<Id>, edges: seq<Edge>, color: map<Id, Color>, rank: map<Id, int>)
    requires Consistent(ToSet(ids), Arcs(ToSet(ids), edges), color, [], rank)
    requires AllBlack(color, ids)
    ensures !Cyclic(Arcs(ToSet(ids), edges))
  {
    AllBlackAcyclic(ToSet(ids), edges, color, rank);
  }
}
