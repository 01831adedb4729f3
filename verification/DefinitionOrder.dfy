/** The executor's order is the only one that fits its description, and when it is the definition order. */
module DefinitionOrder {
  import opened Graph
  import opened TopologicalSort

  /** The last predecessor and the last mention that release an id are one position each. */
  lemma ReleasedOnce(known: set<Id>, edges: seq<Edge>, s: seq<Id>, v: Id, i: int, j: int, i': int, j': int)
    requires Distinct(s) && ReleasedAt(known, edges, s, v, i, j) && ReleasedAt(known, edges, s, v, i', j')
    ensures i == i' && j == j'
  {
    LastPredecessor(known, edges, s, v, i, j, i', j');
    LastPredecessor(known, edges, s, v, i', j', i, j);
  }

  lemma LastPredecessor(known: set<Id>, edges: seq<Edge>, s: seq<Id>, v: Id, i: int, j: int, i': int, j': int)
    requires Distinct(s) && ReleasedAt(known, edges, s, v, i, j) && ReleasedAt(known, edges, s, v, i', j')
    ensures i' <= i
  {
    NeighborsAreArcs(known, edges, s[i']);
    assert v in Neighbors(known, edges, s[i']);
    assert s[i'] in s[..i + 1];
  }

  /** What releases an id before position k is settled by the first k ids. */
  lemma ReleasedByPrefix(known: set<Id>, edges: seq<Edge>, s: seq<Id>, t: seq<Id>, k: nat, x: nat, i: int, j: int)
    requires Distinct(s) && Topological(Arcs(known, edges), s) && k <= |t| && k <= x < |s|
    requires s[..k] == t[..k] && (forall u :: (u, s[x]) in Arcs(known, edges) ==> u in s[..k])
    requires ReleasedAt(known, edges, s, s[x], i, j)
    ensures ReleasedAt(known, edges, t, s[x], i, j)
  {
    NeighborsAreArcs(known, edges, s[i]);
    assert s[x] in Neighbors(known, edges, s[i]);
    assert s[i] in s[..k];
    assert i < k;
    assert s[..i + 1] == s[..k][..i + 1] && t[..i + 1] == t[..k][..i + 1];
    assert s[i] == s[..k][i] && t[i] == t[..k][i];
  }

  /** Of two ids that stand at position k in two orders with the same past, neither can be released first. */
  lemma SameNext(known: set<Id>, edges: seq<Edge>, sources: seq<Id>, s: seq<Id>, t: seq<Id>,
                 a: seq<(int, int)>, b: seq<(int, int)>, k: nat)
    requires Distinct(s) && Distinct(t) && |sources| <= k < |s| && k < |t| && s[..k] == t[..k]
    requires forall x :: x in s <==> x in t
    requires Topological(Arcs(known, edges), s) && Topological(Arcs(known, edges), t)
    requires ReleaseTimes(known, edges, sources, s, a) && ReleaseTimes(known, edges, sources, t, b)
    ensures s[k] == t[k]
  {
    if s[k] != t[k] {
      var m := Later(s, t, k);
      var n := Later(t, s, k);
      hide Arcs, Neighbors;
      Crossing(known, edges, s, t, k, m, a[k].0, a[k].1, b[m].0, b[m].1);
      Crossing(known, edges, t, s, k, n, b[k].0, b[k].1, a[n].0, a[n].1);
      assert false;
    }
  }

  /** An id at position k of s stands later in t. */
  lemma Later(s: seq<Id>, t: seq<Id>, k: nat) returns (m: nat)
    requires Distinct(s) && k < |s| && k < |t| && s[..k] == t[..k] && s[k] in t && s[k] != t[k]
    ensures k < m < |t| && t[m] == s[k]
  {
    m :| 0 <= m < |t| && t[m] == s[k];
    forall x | 0 <= x < k
      ensures s[x] == t[x]
    {
      assert s[..k][x] == t[..k][x];
    }
  }

  lemma Crossing(known: set<Id>, edges: seq<Edge>, s: seq<Id>, t: seq<Id>, k: nat, m: nat, i: int, j: int, i': int, j': int)
    requires Distinct(s) && Distinct(t) && k < |s| && k < m < |t| && s[..k] == t[..k] && s[k] == t[m]
    requires Topological(Arcs(known, edges), s)
    requires ReleasedAt(known, edges, s, s[k], i, j) && ReleasedAt(known, edges, t, t[m], i', j')
    ensures i == i' && j == j'
  {
    hide Arcs, Neighbors;
    ReleasedByPrefix(known, edges, s, t, k, k, i, j);
    ReleasedOnce(known, edges, t, t[m], i, j, i', j');
  }

  lemma {:induction false} SamePrefix(known: set<Id>, edges: seq<Edge>, sources: seq<Id>, s: seq<Id>, t: seq<Id>,
                                      a: seq<(int, int)>, b: seq<(int, int)>, k: nat)
    requires Distinct(s) && Distinct(t) && (forall x :: x in s <==> x in t)
    requires Topological(Arcs(known, edges), s) && Topological(Arcs(known, edges), t)
    requires ReleaseTimes(known, edges, sources, s, a) && ReleaseTimes(known, edges, sources, t, b)
    requires sources <= s && sources <= t
    requires k <= |s| && |s| == |t|
    ensures s[..k] == t[..k]
    decreases k
  {
    hide *;
    if k > 0 {
      SamePrefix(known, edges, sources, s, t, a, b, k - 1);
      if k - 1 < |sources| {
        assert s[k - 1] == sources[k - 1] == t[k - 1];
      } else {
        SameNext(known, edges, sources, s, t, a, b, k - 1);
      }
      assert s[..k] == s[..k - 1] + [s[k - 1]] && t[..k] == t[..k - 1] + [t[k - 1]];
    }
  }

  /** First in, first out leaves no choice. */
  lemma FirstInFirstOutIsUnique(known: set<Id>, edges: seq<Edge>, sources: seq<Id>, s: seq<Id>, t: seq<Id>)
    requires Distinct(s) && Distinct(t) && (forall x :: x in s <==> x in t) && |s| == |t|
    requires Topological(Arcs(known, edges), s) && Topological(Arcs(known, edges), t)
    requires FirstInFirstOut(known, edges, sources, s) && FirstInFirstOut(known, edges, sources, t)
    ensures s == t
  {
    hide Arcs, Topological, ReleasedAt, Distinct;
    var a :| ReleaseTimes(known, edges, sources, s, a);
    var b :| ReleaseTimes(known, edges, sources, t, b);
    SamePrefix(known, edges, sources, s, t, a, b, |s|);
    assert s[..|s|] == s && t[..|t|] == t;
  }

  /** The ids in definition order begin with an order of release of those no cycle reaches, and end with the others. */
  ghost predicate DefinedInOrder(ids: seq<Id>, edges: seq<Edge>) {
    var arcs := Arcs(ToSet(ids), edges);
    exists prefix ::
      && ids == prefix + CycleBound(ids, arcs)
      && Topological(arcs, prefix)
      && FirstInFirstOut(ToSet(ids), edges, Sources(ids, arcs), prefix)
  }

  lemma PrefixMembers(ids: seq<Id>, edges: seq<Edge>, prefix: seq<Id>, s: seq<Id>)
    requires Distinct(ids) && multiset(s) == multiset(ids) && s == prefix + CycleBound(ids, Arcs(ToSet(ids), edges))
    ensures Distinct(prefix) && |prefix| == |ids| - |CycleBound(ids, Arcs(ToSet(ids), edges))|
    ensures forall v :: v in prefix <==> v in ids && !FromCycle(Arcs(ToSet(ids), edges), v)
  {
    var arcs := Arcs(ToSet(ids), edges);
    var rest := CycleBound(ids, arcs);
    CycleBoundMembers(ids, arcs);
    MultisetOfDistinct(ids);
    hide FromCycle, Arcs;
    forall v
      ensures multiset(prefix)[v] + multiset(rest)[v] == if v in ids then 1 else 0
    {
      assert multiset(s)[v] == multiset(prefix)[v] + multiset(rest)[v];
    }
    assert |multiset(s)| == |s| && |multiset(ids)| == |ids|;
    OnceIsDistinct(prefix);
  }

  /** The order that starts with an order of release of the ids no cycle reaches is the schedule. */
  lemma ScheduleIsUnique(ids: seq<Id>, edges: seq<Edge>, order: seq<Id>, other: seq<Id>, prefix: seq<Id>)
    requires Distinct(ids) && Scheduled(ids, edges, order) && multiset(other) == multiset(ids)
    requires other == prefix + CycleBound(ids, Arcs(ToSet(ids), edges))
    requires Topological(Arcs(ToSet(ids), edges), prefix)
    requires FirstInFirstOut(ToSet(ids), edges, Sources(ids, Arcs(ToSet(ids), edges)), prefix)
    ensures order == other
  {
    var known, arcs := ToSet(ids), Arcs(ToSet(ids), edges);
    var emitted :| Continues(ids, edges, emitted, order);
    ScheduledIsPermutation(ids, edges, order);
    hide FirstInFirstOut, LayerByLayer, Topological, FromCycle, Sources, CycleBound, Scheduled, Arcs;
    PrefixMembers(ids, edges, emitted, order);
    PrefixMembers(ids, edges, prefix, other);
    FirstInFirstOutIsUnique(known, edges, Sources(ids, arcs), emitted, prefix);
  }

  /** There is one schedule. */
  lemma OneSchedule(ids: seq<Id>, edges: seq<Edge>, order: seq<Id>, other: seq<Id>)
    requires Distinct(ids) && Scheduled(ids, edges, order) && Scheduled(ids, edges, other)
    ensures order == other
  {
    var known, arcs := ToSet(ids), Arcs(ToSet(ids), edges);
    var prefix :| Continues(ids, edges, prefix, other);
    hide FirstInFirstOut, Scheduled;
    ScheduledIsPermutation(ids, edges, other);
    ScheduleIsUnique(ids, edges, order, other, prefix);
  }

  /** The sort returns the definition order if and only if the definition order has the cycle-bound ids
      last and lists the others in the order in which the queue releases them. */
  lemma OrderIsDefinitionOrderIff(ids: seq<Id>, edges: seq<Edge>, order: seq<Id>)
    requires Distinct(ids) && Scheduled(ids, edges, order)
    ensures order == ids <==> DefinedInOrder(ids, edges)
  {
    var known, arcs := ToSet(ids), Arcs(ToSet(ids), edges);
    if DefinedInOrder(ids, edges) {
      var prefix :| ids == prefix + CycleBound(ids, arcs) && Topological(arcs, prefix)
        && FirstInFirstOut(known, edges, Sources(ids, arcs), prefix);
      hide FirstInFirstOut, Topological;
      ScheduleIsUnique(ids, edges, order, ids, prefix);
    }
  }

  lemma SelfLoop(a: Id, b: Id, arcs: set<(Id, Id)>)
    requires a != b && arcs == {(a, a)}
    ensures FromCycle(arcs, a) && !FromCycle(arcs, b)
  {
    assert ClosedWalk(arcs, [a, a]) && Walk(arcs, [a]);
    hide ClosedWalk, Walk;
    var rank := map[b := 0];
    assert Ranked(arcs, rank);
    RankedNotFromCycle(arcs, rank, b);
  }

  lemma BoundOfTwo(a: Id, b: Id, arcs: set<(Id, Id)>)
    requires FromCycle(arcs, a) && !FromCycle(arcs, b)
    ensures CycleBound([a, b], arcs) == [a]
  {
    hide FromCycle;
    assert [a, b][..1] == [a] && [a][..0] == [];
    assert CycleBound([a], arcs) == [a];
  }

  /** On a cyclic graph the order need not be the definition order: an id on a cycle moves behind one that is not. */
  lemma CycleMovesBack(order: seq<Id>)
    requires Scheduled([Name("a"), Name("b")], [Edge(Name("a"), Name("a"), "")], order)
    ensures order == [Name("b"), Name("a")]
  {
    hide FromCycle, CycleBound, FirstInFirstOut, Topological, LayerByLayer, Sources;
    var a, b := Name("a"), Name("b");
    var ids, edges := [a, b], [Edge(a, a, "")];
    var arcs := Arcs(ToSet(ids), edges);
    assert a != b && Distinct(ids);
    assert arcs == {(a, a)} by {
      assert edges[0] in edges && a in ids;
    }
    SelfLoop(a, b, arcs);
    BoundOfTwo(a, b, arcs);
    LonePrefix(ids, edges, order, a, b);
  }

  lemma LonePrefix(ids: seq<Id>, edges: seq<Edge>, order: seq<Id>, a: Id, b: Id)
    requires Distinct(ids) && ids == [a, b] && Scheduled(ids, edges, order)
    requires CycleBound(ids, Arcs(ToSet(ids), edges)) == [a]
    requires FromCycle(Arcs(ToSet(ids), edges), a)
    ensures order == [b, a]
  {
    hide FromCycle, CycleBound, FirstInFirstOut, Topological, LayerByLayer, Sources, Arcs;
    var arcs := Arcs(ToSet(ids), edges);
    var prefix :| Continues(ids, edges, prefix, order);
    ScheduledIsPermutation(ids, edges, order);
    hide Emitted;
    PrefixMembers(ids, edges, prefix, order);
    assert prefix[0] in prefix;
  }
}
