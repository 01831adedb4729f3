/** How a cyclic run picks its first node and, after each step, its next one. */
module Routing {
  import opened Graph

  /** The ids nothing points at; absent and empty ids are ignored on both sides. */
  ghost predicate IsEntry(ids: seq<Id>, edges: seq<Edge>, id: Id) {
    && id in ids && id.Present()
    && forall e :: e in edges ==> e.target != id
  }

  ghost predicate FirstSuch(ids: seq<Id>, p: Id -> bool, id: Id) {
    exists k :: 0 <= k < |ids| && ids[k] == id && p(id) && forall j :: 0 <= j < k ==> !p(ids[j])
  }

  /** At most one id: the first entry node, or the first id when every id is some edge's target. */
  method BuildEntryNodeQueue(ids: seq<Id>, edges: seq<Edge>) returns (queue: seq<Id>)
    ensures |queue| <= 1
    ensures queue == [] <==> forall id :: id in ids ==> !id.Present()
    ensures queue != [] ==> queue[0] in ids && queue[0].Present()
    ensures (exists id :: IsEntry(ids, edges, id)) ==>
      queue != [] && FirstSuch(ids, (id: Id) => IsEntry(ids, edges, id), queue[0])
    ensures queue != [] && (forall id :: !IsEntry(ids, edges, id)) ==>
      FirstSuch(ids, (id: Id) => id.Present(), queue[0])
  {
    var targets := set e | e in edges && e.target.Present() :: e.target;
    queue := [];
    for i := 0 to |ids|
      invariant |queue| <= 1
      invariant queue == [] <==> forall id :: id in ids[..i] ==> !id.Present()
      invariant queue != [] ==> queue[0] in ids && queue[0].Present()
      invariant queue != [] ==> FirstSuch(ids, (id: Id) => id.Present(), queue[0])
      invariant forall j :: 0 <= j < i ==> !IsEntry(ids, edges, ids[j])
    {
      if ids[i].Present() && ids[i] !in targets {
        assert IsEntry(ids, edges, ids[i]);
        return [ids[i]];
      }
      if ids[i].Present() && queue == [] {
        assert forall j :: 0 <= j < i ==> ids[j] in ids[..i];
        queue := [ids[i]];
      }
      assert ids[..i + 1] == ids[..i] + [ids[i]];
    }
    assert ids[..|ids|] == ids;
  }

  /** The edges that leave u, in definition order; edges without a source leave nowhere. */
  function Outgoing(edges: seq<Edge>, u: Id): (r: seq<Edge>)
    ensures forall e :: e in r <==> e in edges && e.source == u && u.Present()
  {
    if edges == [] then []
    else
      assert forall e :: e in edges <==> e in edges[..|edges| - 1] || e == edges[|edges| - 1];
      Outgoing(edges[..|edges| - 1], u)
      + if edges[|edges| - 1].source == u && u.Present() then [edges[|edges| - 1]] else []
  }

  method BuildEdgeAdjacency(edges: seq<Edge>) returns (adjacency: map<Id, seq<Edge>>)
    ensures forall u :: Outgoing(edges, u) == if u in adjacency then adjacency[u] else []
  {
    adjacency := map[];
    for i := 0 to |edges|
      invariant forall u :: Outgoing(edges[..i], u) == if u in adjacency then adjacency[u] else []
    {
      assert edges[..i + 1][..i] == edges[..i];
      var e := edges[i];
      if e.source.Present() {
        var before := if e.source in adjacency then adjacency[e.source] else [];
        adjacency := adjacency[e.source := before + [e]];
      }
    }
    assert edges[..|edges|] == edges;
  }

  predicate Occurs(needle: string, hay: string) {
    exists i :: 0 <= i <= |hay| && needle <= hay[i..]
  }

  /** The edge's condition names the agent's action, or appears in its reasoning. */
  predicate Matches(e: Edge, action: string, reasoning: string) {
    && e.condition != "" && e.condition != "default"
    && (e.condition == action || (reasoning != "" && Occurs(e.condition, reasoning)))
  }

  ghost predicate IsFirst(outgoing: seq<Edge>, k: nat, action: string, reasoning: string) {
    && k < |outgoing| && Matches(outgoing[k], action, reasoning)
    && forall j :: 0 <= j < k ==> !Matches(outgoing[j], action, reasoning)
  }

  ghost predicate IsLastDefault(outgoing: seq<Edge>, k: nat) {
    && k < |outgoing| && outgoing[k].condition == "default"
    && forall j :: k < j < |outgoing| ==> outgoing[j].condition != "default"
  }

  /** The route: a lone edge always; else the first matching edge, else the last default edge
      with a usable target, else the first edge. Conditions, action and reasoning are given
      trimmed and in lower case. */
  ghost predicate Routes(outgoing: seq<Edge>, action: string, reasoning: string, next: Id) {
    && (outgoing == [] ==> next == Missing)
    && (outgoing != [] ==> exists e :: e in outgoing && e.target == next)
    && (|outgoing| == 1 ==> next == outgoing[0].target)
    && (|outgoing| > 1 ==>
          forall k: nat :: IsFirst(outgoing, k, action, reasoning) ==> next == outgoing[k].target)
    && (|outgoing| > 1 && (forall e :: e in outgoing ==> !Matches(e, action, reasoning)) ==>
          && (forall k: nat :: IsLastDefault(outgoing, k) ==>
                next == if outgoing[k].target.Present() then outgoing[k].target else outgoing[0].target)
          && ((forall e :: e in outgoing ==> e.condition != "default") ==> next == outgoing[0].target))
  }

  lemma {:induction false} FirstMatchExists(outgoing: seq<Edge>, action: string, reasoning: string, k: nat) returns (f: nat)
    requires k < |outgoing| && Matches(outgoing[k], action, reasoning)
    ensures IsFirst(outgoing, f, action, reasoning)
    decreases k
  {
    if j: nat :| j < k && Matches(outgoing[j], action, reasoning) {
      f := FirstMatchExists(outgoing, action, reasoning, j);
    } else {
      f := k;
    }
  }

  lemma {:induction false} LastDefaultExists(outgoing: seq<Edge>, k: nat) returns (f: nat)
    requires k < |outgoing| && outgoing[k].condition == "default"
    ensures IsLastDefault(outgoing, f)
    decreases |outgoing| - k
  {
    if j: nat :| k < j < |outgoing| && outgoing[j].condition == "default" {
      f := LastDefaultExists(outgoing, j);
    } else {
      f := k;
    }
  }

  /** The rules leave no choice: a node, an action and a reasoning have one route. */
  lemma RouteIsUnique(outgoing: seq<Edge>, action: string, reasoning: string, a: Id, b: Id)
    requires Routes(outgoing, action, reasoning, a) && Routes(outgoing, action, reasoning, b)
    ensures a == b
  {
    hide Matches;
    if |outgoing| > 1 {
      if k: nat :| k < |outgoing| && Matches(outgoing[k], action, reasoning) {
        var f := FirstMatchExists(outgoing, action, reasoning, k);
      } else if k: nat :| k < |outgoing| && outgoing[k].condition == "default" {
        var f := LastDefaultExists(outgoing, k);
      }
    }
  }

  lemma FirstMatchRoutes(outgoing: seq<Edge>, k: nat, action: string, reasoning: string)
    requires |outgoing| > 1 && IsFirst(outgoing, k, action, reasoning)
    ensures Routes(outgoing, action, reasoning, outgoing[k].target)
  {
    hide Matches;
    assert outgoing[k] in outgoing;
  }

  lemma DefaultRoutes(outgoing: seq<Edge>, last: int, action: string, reasoning: string, next: Id)
    requires |outgoing| > 1 && -1 <= last < |outgoing|
    requires forall j :: 0 <= j < |outgoing| ==> !Matches(outgoing[j], action, reasoning)
    requires last >= 0 ==> outgoing[last].condition == "default"
    requires forall j :: last < j < |outgoing| ==> outgoing[j].condition != "default"
    requires next ==
      if last >= 0 && outgoing[last].target.Present() then outgoing[last].target else outgoing[0].target
    ensures Routes(outgoing, action, reasoning, next)
  {
    hide Matches;
    assert outgoing[0] in outgoing;
    if last >= 0 {
      assert outgoing[last] in outgoing;
      assert forall k: nat :: IsLastDefault(outgoing, k) ==> k == last;
    } else {
      assert forall k: nat :: !IsLastDefault(outgoing, k);
    }
  }

  method ResolveNextNode(outgoing: seq<Edge>, action: string, reasoning: string) returns (next: Id)
    ensures Routes(outgoing, action, reasoning, next)
  {
    if outgoing == [] {
      return Missing;
    }
    if |outgoing| == 1 {
      assert outgoing[0] in outgoing;
      return outgoing[0].target;
    }
    hide Routes;
    var defaultTarget := Missing;
    ghost var last := -1;
    for i := 0 to |outgoing|
      invariant forall j :: 0 <= j < i ==> !Matches(outgoing[j], action, reasoning)
      invariant -1 <= last < i
      invariant last == -1 ==> defaultTarget == Missing
      invariant last >= 0 ==> outgoing[last].condition == "default" && defaultTarget == outgoing[last].target
      invariant forall j :: last < j < i ==> outgoing[j].condition != "default"
    {
      var e := outgoing[i];
      if e.condition == "" {
        continue;
      }
      if e.condition == "default" {
        defaultTarget := e.target;
        last := i;
        continue;
      }
      if e.condition == action {
        FirstMatchRoutes(outgoing, i, action, reasoning);
        return e.target;
      }
      if reasoning != "" && Occurs(e.condition, reasoning) {
        FirstMatchRoutes(outgoing, i, action, reasoning);
        return e.target;
      }
    }
    next := if defaultTarget.Present() then defaultTarget else outgoing[0].target;
    DefaultRoutes(outgoing, last, action, reasoning, next);
  }

  /** An edge is chosen for its condition when the action is that condition, or the reasoning contains it. */
  lemma MatchesIff(e: Edge, action: string, reasoning: string)
    ensures Matches(e, action, reasoning) <==>
      && e.condition != "" && e.condition != "default"
      && (e.condition == action || exists before, after :: reasoning == before + e.condition + after)
  {
    ContainedIff(e.condition, reasoning);
  }

  lemma ContainedIff(needle: string, hay: string)
    ensures Occurs(needle, hay) <==> exists before, after :: hay == before + needle + after
  {
    if i :| 0 <= i <= |hay| && needle <= hay[i..] {
      assert hay == hay[..i] + needle + hay[i..][|needle|..];
    }
    if before, after :| hay == before + needle + after {
      assert hay[|before|..] == needle + after;
    }
  }
}
