/** Directed graphs as the workflow builder and the executor see them: node ids,
    edges, walks, cycles, reachability from a cycle, and longest-path depth. */
module Graph {

  /** A node id read with `.get("id")`: it may be absent. */
  datatype Id = Missing | Name(text: string) {
    /** Truthiness of an id: neither absent nor the empty string. */
    predicate Present() {
      Name? && text != ""
    }
  }

  datatype Edge = Edge(source: Id, target: Id, condition: string)

  predicate Distinct<T(==)>(s: seq<T>) {
    forall i, j :: 0 <= i < j < |s| ==> s[i] != s[j]
  }

  function ToSet<T>(s: seq<T>): set<T> {
    set x | x in s
  }

  /** The arcs between known nodes; parallel edges collapse, dangling edges vanish. */
  function Arcs(ids: set<Id>, edges: seq<Edge>): set<(Id, Id)> {
    set e | e in edges && e.source in ids && e.target in ids :: (e.source, e.target)
  }

  ghost predicate Walk(arcs: set<(Id, Id)>, p: seq<Id>) {
    |p| >= 1 && forall i, j :: 0 <= i < j < |p| && j == i + 1 ==> (p[i], p[j]) in arcs
  }

  ghost predicate ClosedWalk(arcs: set<(Id, Id)>, p: seq<Id>) {
    Walk(arcs, p) && |p| >= 2 && p[0] == p[|p| - 1]
  }

  ghost predicate Cyclic(arcs: set<(Id, Id)>) {
    exists p :: ClosedWalk(arcs, p)
  }

  /** Some closed walk reaches v. */
  ghost predicate FromCycle(arcs: set<(Id, Id)>, v: Id) {
    exists c, q :: ClosedWalk(arcs, c) && Walk(arcs, q) && q[0] == c[0] && q[|q| - 1] == v
  }

  /** Some walk of n arcs ends in v. */
  ghost predicate Deep(arcs: set<(Id, Id)>, v: Id, n: nat) {
    exists p :: Walk(arcs, p) && |p| == n + 1 && p[n] == v
  }

  /** n is the length of the longest walk that ends in v. */
  ghost predicate HasDepth(arcs: set<(Id, Id)>, v: Id, n: nat) {
    Deep(arcs, v, n) && forall m: nat :: m > n ==> !Deep(arcs, v, m)
  }

  lemma DeepExtend(arcs: set<(Id, Id)>, u: Id, v: Id, n: nat)
    requires Deep(arcs, u, n) && (u, v) in arcs
    ensures Deep(arcs, v, n + 1)
  {
    var p :| Walk(arcs, p) && |p| == n + 1 && p[n] == u;
    var q := p + [v];
    assert Walk(arcs, q) && |q| == n + 2 && q[n + 1] == v;
  }

  lemma DeepPredecessor(arcs: set<(Id, Id)>, v: Id, n: nat) returns (u: Id)
    requires n > 0 && Deep(arcs, v, n)
    ensures (u, v) in arcs && Deep(arcs, u, n - 1)
  {
    var p :| Walk(arcs, p) && |p| == n + 1 && p[n] == v;
    u := p[n - 1];
    assert (p[n - 1], p[n - 1 + 1]) in arcs;
    var q := p[..n];
    assert Walk(arcs, q) && |q| == n && q[n - 1] == u;
  }

  /** A vertex without predecessors has depth 0. */
  lemma SourceDepth(arcs: set<(Id, Id)>, v: Id)
    requires forall u :: (u, v) !in arcs
    ensures HasDepth(arcs, v, 0)
  {
    assert Walk(arcs, [v]) && |[v]| == 0 + 1 && [v][0] == v;
    forall m: nat | m > 0
      ensures !Deep(arcs, v, m)
    {
      if Deep(arcs, v, m) {
        var u := DeepPredecessor(arcs, v, m);
        assert false;
      }
    }
  }

  /** A vertex is one deeper than the deepest of its predecessors. */
  lemma DepthBelow(arcs: set<(Id, Id)>, depth: map<Id, nat>, u: Id, v: Id)
    requires (u, v) in arcs && u in depth
    requires forall w :: (w, v) in arcs ==> w in depth && depth[w] <= depth[u] && HasDepth(arcs, w, depth[w])
    ensures HasDepth(arcs, v, depth[u] + 1)
  {
    DeepExtend(arcs, u, v, depth[u]);
    forall m: nat | m > depth[u] + 1
      ensures !Deep(arcs, v, m)
    {
      if Deep(arcs, v, m) {
        var w := DeepPredecessor(arcs, v, m);
        assert false;
      }
    }
  }

  lemma Pigeonhole(p: seq<Id>, s: set<Id>) returns (i: nat, j: nat)
    requires forall x :: x in p ==> x in s
    requires |p| > |s|
    ensures i < j < |p| && p[i] == p[j]
    decreases |p|
  {
    var last := p[|p| - 1];
    var rest := p[..|p| - 1];
    if last in rest {
      i :| 0 <= i < |rest| && rest[i] == last;
      j := |p| - 1;
    } else {
      forall x | x in rest
        ensures x in s - {last}
      {
      }
      i, j := Pigeonhole(rest, s - {last});
    }
  }

  /** A walk longer than the vertex set passes a cycle before it ends. */
  lemma LongWalkFromCycle(arcs: set<(Id, Id)>, p: seq<Id>, s: set<Id>)
    requires Walk(arcs, p) && |p| > |s|
    requires forall x :: x in p ==> x in s
    ensures FromCycle(arcs, p[|p| - 1])
  {
    var i, j := Pigeonhole(p, s);
    var c, q := p[i..j + 1], p[i..];
    assert ClosedWalk(arcs, c);
    assert Walk(arcs, q) && q[0] == c[0] && q[|q| - 1] == p[|p| - 1];
  }

  ghost predicate HasPredecessorIn(arcs: set<(Id, Id)>, s: set<Id>, v: Id) {
    exists u :: u in s && (u, v) in arcs
  }

  /** A vertex set in which every member has a predecessor inside it lies wholly below cycles. */
  lemma ClosedUnderPredecessors(arcs: set<(Id, Id)>, s: set<Id>, v: Id)
    requires v in s
    requires forall x :: x in s ==> HasPredecessorIn(arcs, s, x)
    ensures FromCycle(arcs, v)
  {
    var p := BackwardWalk(arcs, s, v, |s|);
    LongWalkFromCycle(arcs, p, s);
  }

  lemma {:induction false} BackwardWalk(arcs: set<(Id, Id)>, s: set<Id>, v: Id, n: nat) returns (p: seq<Id>)
    requires v in s
    requires forall x :: x in s ==> HasPredecessorIn(arcs, s, x)
    ensures Walk(arcs, p) && |p| == n + 1 && p[n] == v
    ensures forall x :: x in p ==> x in s
    decreases n
  {
    if n == 0 {
      p := [v];
    } else {
      var u :| u in s && (u, v) in arcs;
      var q := BackwardWalk(arcs, s, u, n - 1);
      p := q + [v];
    }
  }

  /** rank grows along every arc into a ranked vertex, and ranked vertices have only ranked predecessors. */
  ghost predicate Ranked(arcs: set<(Id, Id)>, rank: map<Id, int>) {
    forall u, v :: (u, v) in arcs && v in rank ==> u in rank && rank[u] < rank[v]
  }

  lemma {:induction false} RankAlongWalk(arcs: set<(Id, Id)>, rank: map<Id, int>, p: seq<Id>)
    requires Ranked(arcs, rank) && Walk(arcs, p) && p[|p| - 1] in rank
    ensures p[0] in rank && rank[p[0]] + (|p| - 1) <= rank[p[|p| - 1]]
    decreases |p|
  {
    if |p| > 1 {
      var k := |p| - 2;
      assert (p[k], p[k + 1]) in arcs;
      RankAlongWalk(arcs, rank, p[..|p| - 1]);
    }
  }

  /** Ranked vertices are not reachable from any cycle. */
  lemma RankedNotFromCycle(arcs: set<(Id, Id)>, rank: map<Id, int>, v: Id)
    requires Ranked(arcs, rank) && v in rank
    ensures !FromCycle(arcs, v)
  {
    if FromCycle(arcs, v) {
      var c, q :| ClosedWalk(arcs, c) && Walk(arcs, q) && q[0] == c[0] && q[|q| - 1] == v;
      RankAlongWalk(arcs, rank, q);
      RankAlongWalk(arcs, rank, c);
    }
  }

  /** A graph is cyclic exactly when some of its vertices lies on or below a cycle. */
  lemma CyclicIffSomeFromCycle(arcs: set<(Id, Id)>)
    ensures Cyclic(arcs) <==> exists v :: FromCycle(arcs, v)
    ensures Cyclic(arcs) ==> exists u, v :: (u, v) in arcs && FromCycle(arcs, u)
  {
    if Cyclic(arcs) {
      var c :| ClosedWalk(arcs, c);
      assert Walk(arcs, [c[0]]);
      assert FromCycle(arcs, c[0]);
      assert (c[0], c[0 + 1]) in arcs;
    }
  }

  ghost predicate Reaches(arcs: set<(Id, Id)>, u: Id, v: Id) {
    exists p :: Walk(arcs, p) && p[0] == u && p[|p| - 1] == v
  }

  ghost predicate Symmetric(arcs: set<(Id, Id)>) {
    forall u, v :: (u, v) in arcs ==> (v, u) in arcs
  }

  lemma ReachesSelf(arcs: set<(Id, Id)>, u: Id)
    ensures Reaches(arcs, u, u)
  {
    assert Walk(arcs, [u]);
  }

  lemma ReachesStep(arcs: set<(Id, Id)>, u: Id, v: Id, w: Id)
    requires Reaches(arcs, u, v) && (v, w) in arcs
    ensures Reaches(arcs, u, w)
  {
    var p :| Walk(arcs, p) && p[0] == u && p[|p| - 1] == v;
    assert Walk(arcs, p + [w]);
  }

  lemma ReachesTransitive(arcs: set<(Id, Id)>, u: Id, v: Id, w: Id)
    requires Reaches(arcs, u, v) && Reaches(arcs, v, w)
    ensures Reaches(arcs, u, w)
  {
    var p :| Walk(arcs, p) && p[0] == u && p[|p| - 1] == v;
    var q :| Walk(arcs, q) && q[0] == v && q[|q| - 1] == w;
    var r := p + q[1..];
    forall i, j | 0 <= i < j < |r| && j == i + 1
      ensures (r[i], r[j]) in arcs
    {
      if i == |p| - 1 {
        assert r[i] == q[0] && r[j] == q[1];
      } else if i >= |p| {
        assert r[i] == q[i - |p| + 1] && r[j] == q[j - |p| + 1];
      }
    }
    assert Walk(arcs, r);
  }

  lemma {:induction false} ReachesReversed(arcs: set<(Id, Id)>, p: seq<Id>)
    requires Symmetric(arcs) && Walk(arcs, p)
    ensures Reaches(arcs, p[|p| - 1], p[0])
    decreases |p|
  {
    if |p| == 1 {
      ReachesSelf(arcs, p[0]);
    } else {
      assert (p[0], p[1]) in arcs;
      ReachesReversed(arcs, p[1..]);
      ReachesStep(arcs, p[|p| - 1], p[1], p[0]);
    }
  }

  /** A set that a walk cannot leave contains the walk's end. */
  lemma {:induction false} WalkStaysInside(arcs: set<(Id, Id)>, s: set<Id>, p: seq<Id>)
    requires forall u, v :: u in s && (u, v) in arcs ==> v in s
    requires Walk(arcs, p) && p[0] in s
    ensures p[|p| - 1] in s
    decreases |p|
  {
    if |p| > 1 {
      var k := |p| - 2;
      assert (p[k], p[k + 1]) in arcs;
      WalkStaysInside(arcs, s, p[..|p| - 1]);
    }
  }

  lemma {:induction false} DistinctCardinality<T>(s: seq<T>)
    requires Distinct(s)
    ensures |ToSet(s)| == |s|
    decreases |s|
  {
    if s != [] {
      var rest, x := s[..|s| - 1], s[|s| - 1];
      DistinctCardinality(rest);
      assert s == rest + [x];
      assert ToSet(s) == ToSet(rest) + {x};
    }
  }
}
