/** The builder's `validateGraph`, the compiler's `validate_definition` with its agent-config
    check, and the theorem that relates what the two accept. */
module WorkflowValidation {
  import opened Common
  import opened Graph
  import opened Connectivity
  import CycleDetection

  const MAX_NODES := 200
  const MAX_EDGES := 400

  /** `kind` is the node's `type`; the empty string stands for an absent one. */
  datatype Node = Node(id: Id, kind: string, connectorKey: string, actionKey: string, url: string, httpMethod: string) {
    predicate IsAgent() {
      kind == "" || kind == "agent"
    }

    predicate IsConnector() {
      kind == "connector"
    }

    predicate IncompleteConnector() {
      connectorKey != "http" || actionKey != "request" || url == "" || httpMethod == ""
    }
  }

  datatype AgentConfig = AgentConfig(nodeId: Id, promptBlank: bool, maxTokens: nat)

  datatype GraphError =
    | EmptyGraph
    | Orphans(ids: seq<Id>)
    | NotConnected
    | HasCycles
    | MissingConfigs(ids: seq<Id>)
    | IncompleteConnectors(ids: seq<Id>)
    | BlankPrompts(ids: seq<Id>)

  datatype Check = Nonempty | OrphanFree | SizeOk | CycleOk | ConfigsPresent | ConnectorsOk | PromptsOk

  function FailedCheck(e: GraphError): Check {
    match e
    case EmptyGraph => Nonempty
    case Orphans(_) => OrphanFree
    case NotConnected => SizeOk
    case HasCycles => CycleOk
    case MissingConfigs(_) => ConfigsPresent
    case IncompleteConnectors(_) => ConnectorsOk
    case BlankPrompts(_) => PromptsOk
  }

  ghost predicate Reports(errors: seq<GraphError>, check: Check) {
    exists e :: e in errors && FailedCheck(e) == check
  }

  datatype CompilationError =
    | NoNodes
    | TooManyNodes
    | TooManyEdges
    | UnknownSource(id: Id)
    | UnknownTarget(id: Id)
    | NoEdges
    | OrphanNodes(orphans: set<Id>)
    | AgentConfigsMissing(missing: set<Id>)

  function Ids(nodes: seq<Node>): (r: seq<Id>)
    ensures |r| == |nodes| && forall i :: 0 <= i < |nodes| ==> r[i] == nodes[i].id
  {
    seq(|nodes|, i requires 0 <= i < |nodes| => nodes[i].id)
  }

  predicate Touched(edges: seq<Edge>, id: Id) {
    exists e :: e in edges && (e.source == id || e.target == id)
  }

  predicate HasConfig(configs: seq<AgentConfig>, id: Id) {
    exists c :: c in configs && c.nodeId == id
  }

  /** What `validateGraph` demands, check by check. */
  ghost predicate NoOrphans(nodes: seq<Node>, edges: seq<Edge>) {
    |nodes| > 1 ==> forall n :: n in nodes ==> Touched(edges, n.id)
  }

  ghost predicate SizeTest(nodes: seq<Node>, edges: seq<Edge>) {
    |nodes| > 1 ==> |Component(ToSet(Ids(nodes)), edges, nodes[0].id)| == |nodes|
  }

  ghost predicate CyclesAllowed(nodes: seq<Node>, edges: seq<Edge>, cyclicPattern: bool) {
    cyclicPattern || !Cyclic(Arcs(ToSet(Ids(nodes)), edges))
  }

  ghost predicate Configured(nodes: seq<Node>, configs: seq<AgentConfig>) {
    forall n :: n in nodes && n.IsAgent() ==> HasConfig(configs, n.id)
  }

  ghost predicate ConnectorsComplete(nodes: seq<Node>) {
    forall n :: n in nodes && n.IsConnector() ==> !n.IncompleteConnector()
  }

  ghost predicate PromptsFilled(configs: seq<AgentConfig>) {
    forall c :: c in configs ==> !c.promptBlank
  }

  ghost predicate Passes(nodes: seq<Node>, edges: seq<Edge>, configs: seq<AgentConfig>, cyclicPattern: bool,
                         check: Check) {
    match check
    case Nonempty => nodes != []
    case OrphanFree => NoOrphans(nodes, edges)
    case SizeOk => SizeTest(nodes, edges)
    case CycleOk => CyclesAllowed(nodes, edges, cyclicPattern)
    case ConfigsPresent => Configured(nodes, configs)
    case ConnectorsOk => ConnectorsComplete(nodes)
    case PromptsOk => PromptsFilled(configs)
  }

  ghost predicate Accepted(nodes: seq<Node>, edges: seq<Edge>, configs: seq<AgentConfig>, cyclicPattern: bool) {
    forall check :: Passes(nodes, edges, configs, cyclicPattern, check)
  }

  /** Acceptance, field by field. */
  lemma AcceptedIff(nodes: seq<Node>, edges: seq<Edge>, configs: seq<AgentConfig>, cyclicPattern: bool)
    ensures Accepted(nodes, edges, configs, cyclicPattern) <==>
      && nodes != []
      && (|nodes| > 1 ==>
            && (forall n :: n in nodes ==> exists e :: e in edges && (e.source == n.id || e.target == n.id))
            && |Component(ToSet(Ids(nodes)), edges, nodes[0].id)| == |nodes|)
      && (cyclicPattern || !Cyclic(Arcs(ToSet(Ids(nodes)), edges)))
      && (forall n :: n in nodes && (n.kind == "" || n.kind == "agent") ==> exists c :: c in configs && c.nodeId == n.id)
      && (forall n :: n in nodes && n.kind == "connector" ==>
            n.connectorKey == "http" && n.actionKey == "request" && n.url != "" && n.httpMethod != "")
      && (forall c :: c in configs ==> !c.promptBlank)
  {
    hide Component, Arcs, Cyclic;
    if Accepted(nodes, edges, configs, cyclicPattern) {
      assert Passes(nodes, edges, configs, cyclicPattern, Nonempty) && Passes(nodes, edges, configs, cyclicPattern, OrphanFree)
          && Passes(nodes, edges, configs, cyclicPattern, SizeOk) && Passes(nodes, edges, configs, cyclicPattern, CycleOk);
      assert Passes(nodes, edges, configs, cyclicPattern, ConfigsPresent)
          && Passes(nodes, edges, configs, cyclicPattern, ConnectorsOk) && Passes(nodes, edges, configs, cyclicPattern, PromptsOk);
    }
  }

  /** The ids of the nodes that satisfy p, in definition order. */
  function Select(nodes: seq<Node>, p: Node -> bool): (r: seq<Id>)
    ensures r == [] <==> forall n :: n in nodes ==> !p(n)
    ensures forall x :: x in r <==> exists n :: n in nodes && p(n) && n.id == x
  {
    if nodes == [] then []
    else
      assert forall n :: n in nodes <==> n in nodes[..|nodes| - 1] || n == nodes[|nodes| - 1];
      Select(nodes[..|nodes| - 1], p)
      + if p(nodes[|nodes| - 1]) then [nodes[|nodes| - 1].id] else []
  }

  method FindOrphanNodes(nodes: seq<Node>, edges: seq<Edge>) returns (orphans: seq<Id>)
    ensures orphans == [] <==> NoOrphans(nodes, edges)
    ensures forall x :: x in orphans <==>
      |nodes| > 1 && exists n :: n in nodes && n.id == x && !Touched(edges, x)
  {
    if |nodes| <= 1 {
      return [];
    }
    var connectedIds: set<Id> := {};
    for i := 0 to |edges|
      invariant forall x :: x in connectedIds <==> Touched(edges[..i], x)
    {
      assert forall e :: e in edges[..i + 1] <==> e in edges[..i] || e == edges[i];
      assert edges[i] in edges[..i + 1];
      connectedIds := connectedIds + {edges[i].source} + {edges[i].target};
    }
    assert edges[..|edges|] == edges;
    orphans := Select(nodes, (n: Node) => n.id !in connectedIds);
  }

  /** Checks 4, 4b and 5: configs for agents, complete connectors, filled prompts. */
  method CheckNodesAndConfigs(nodes: seq<Node>, configs: seq<AgentConfig>, errors0: seq<GraphError>)
    returns (errors: seq<GraphError>)
    ensures forall check ::
      Reports(errors, check) <==>
        || Reports(errors0, check)
        || (check == ConfigsPresent && !Configured(nodes, configs))
        || (check == ConnectorsOk && !ConnectorsComplete(nodes))
        || (check == PromptsOk && !PromptsFilled(configs))
  {
    hide Configured, ConnectorsComplete, PromptsFilled, Reports, Select, HasConfig, BlankOf, Push;
    errors := errors0;
    var missing := Select(nodes, (n: Node) => n.IsAgent() && !HasConfig(configs, n.id));
    if missing != [] {
      errors := Push(errors, MissingConfigs(missing));
    }
    var incomplete := Select(nodes, (n: Node) => n.IsConnector() && n.IncompleteConnector());
    if incomplete != [] {
      errors := Push(errors, IncompleteConnectors(incomplete));
    }
    var blank := BlankOf(configs);
    if blank != [] {
      errors := Push(errors, BlankPrompts(blank));
    }
    NodeChecks(nodes, configs, missing, incomplete);
  }

  method ValidateGraph(nodes: seq<Node>, edges: seq<Edge>, configs: seq<AgentConfig>, cyclicPattern: bool)
    returns (errors: seq<GraphError>)
    ensures errors == [] <==> Accepted(nodes, edges, configs, cyclicPattern)
    ensures nodes == [] ==> errors == [EmptyGraph]
    ensures nodes != [] ==>
      forall check :: Reports(errors, check) <==> !Passes(nodes, edges, configs, cyclicPattern, check)
  {
    hide NoOrphans, SizeTest, CyclesAllowed, Configured, ConnectorsComplete, PromptsFilled, Passes, Accepted;
    hide Reports, Component, Arcs, Cyclic, Select, Touched, HasConfig, Ids, BlankOf, Push, ToSet;
    errors := [];
    if |nodes| == 0 {
      EmptyRejected(nodes, edges, configs, cyclicPattern);
      return [EmptyGraph];
    }
    ReportsNothing();
    var orphans: seq<Id>, connected, cyclic := [], true, false;
    if |nodes| > 1 {
      orphans := FindOrphanNodes(nodes, edges);
      if orphans != [] {
        errors := Push(errors, Orphans(orphans));
      }
      connected := IsFullyConnected(Ids(nodes), edges);
      if !connected {
        errors := Push(errors, NotConnected);
      }
    }
    if !cyclicPattern {
      cyclic := CycleDetection.HasCycle(Ids(nodes), edges);
      if cyclic {
        errors := Push(errors, HasCycles);
      }
    }
    errors := CheckNodesAndConfigs(nodes, configs, errors);
    EachCheck(nodes, edges, configs, cyclicPattern, orphans, connected, cyclic);
    SilentIffAccepted(nodes, edges, configs, cyclicPattern, errors);
  }

  lemma EmptyRejected(nodes: seq<Node>, edges: seq<Edge>, configs: seq<AgentConfig>, cyclicPattern: bool)
    requires nodes == []
    ensures !Accepted(nodes, edges, configs, cyclicPattern)
  {
    assert !Passes(nodes, edges, configs, cyclicPattern, Nonempty);
  }

  lemma EachCheck(nodes: seq<Node>, edges: seq<Edge>, configs: seq<AgentConfig>, cyclicPattern: bool,
                  orphans: seq<Id>, connected: bool, cyclic: bool)
    requires nodes != []
    requires |nodes| > 1 ==> (orphans == [] <==> NoOrphans(nodes, edges))
    requires |nodes| <= 1 ==> orphans == [] && connected
    requires connected <==> |Ids(nodes)| <= 1 || |Component(ToSet(Ids(nodes)), edges, Ids(nodes)[0])| == |Ids(nodes)|
    requires if cyclicPattern then !cyclic else cyclic <==> Cyclic(Arcs(ToSet(Ids(nodes)), edges))
    ensures forall check :: Passes(nodes, edges, configs, cyclicPattern, check) <==>
      match check
      case Nonempty => true
      case OrphanFree => orphans == []
      case SizeOk => connected
      case CycleOk => !cyclic
      case ConfigsPresent => Configured(nodes, configs)
      case ConnectorsOk => ConnectorsComplete(nodes)
      case PromptsOk => PromptsFilled(configs)
  {
  }

  function Push(errors: seq<GraphError>, e: GraphError): (r: seq<GraphError>)
    ensures forall check :: Reports(r, check) <==> Reports(errors, check) || check == FailedCheck(e)
  {
    assert e in errors + [e];
    assert forall x :: x in errors ==> x in errors + [e];
    errors + [e]
  }

  lemma ReportsNothing()
    ensures forall check :: !Reports([], check)
  {
  }

  lemma NodeChecks(nodes: seq<Node>, configs: seq<AgentConfig>, missing: seq<Id>, incomplete: seq<Id>)
    requires missing == Select(nodes, (n: Node) => n.IsAgent() && !HasConfig(configs, n.id))
    requires incomplete == Select(nodes, (n: Node) => n.IsConnector() && n.IncompleteConnector())
    ensures missing == [] <==> Configured(nodes, configs)
    ensures incomplete == [] <==> ConnectorsComplete(nodes)
  {
  }

  lemma SilentIffAccepted(nodes: seq<Node>, edges: seq<Edge>, configs: seq<AgentConfig>, cyclicPattern: bool,
                          errors: seq<GraphError>)
    requires forall check :: Reports(errors, check) <==> !Passes(nodes, edges, configs, cyclicPattern, check)
    ensures errors == [] <==> Accepted(nodes, edges, configs, cyclicPattern)
  {
    hide Passes;
    if errors != [] {
      assert Reports(errors, FailedCheck(errors[0])) by {
        assert errors[0] in errors;
      }
    }
  }

  function BlankOf(configs: seq<AgentConfig>): (r: seq<Id>)
    ensures r == [] <==> PromptsFilled(configs)
  {
    if configs == [] then []
    else
      assert forall c :: c in configs <==> c in configs[..|configs| - 1] || c == configs[|configs| - 1];
      BlankOf(configs[..|configs| - 1])
      + if configs[|configs| - 1].promptBlank then [configs[|configs| - 1].nodeId] else []
  }

  /** What `validate_definition` demands. */
  ghost predicate WellFormed(ids: seq<Id>, edges: seq<Edge>) {
    && 1 <= |ids| <= MAX_NODES
    && |edges| <= MAX_EDGES
    && KnownEndpoints(ToSet(ids), edges)
    && (|ids| > 1 ==> forall x :: x in ids ==> Touched(edges, x))
  }

  /** What the compiler accepts, field by field. */
  lemma WellFormedIff(ids: seq<Id>, edges: seq<Edge>)
    ensures WellFormed(ids, edges) <==>
      && 1 <= |ids| <= 200 && |edges| <= 400
      && (forall e :: e in edges ==> e.source in ids && e.target in ids)
      && (|ids| > 1 ==> forall x :: x in ids ==> exists e :: e in edges && (e.source == x || e.target == x))
  {
  }

  /** The first edge, in definition order, with an unknown endpoint. */
  ghost predicate FirstDangling(ids: set<Id>, edges: seq<Edge>, i: nat) {
    && i < |edges|
    && !(edges[i].source in ids && edges[i].target in ids)
    && KnownEndpoints(ids, edges[..i])
  }

  predicate WithinCaps(ids: seq<Id>, edges: seq<Edge>) {
    ids != [] && |ids| <= MAX_NODES && |edges| <= MAX_EDGES
  }

  /** The error names the first dangling edge, its source before its target. */
  ghost predicate NamesDangling(ids: seq<Id>, edges: seq<Edge>, error: CompilationError) {
    exists i: nat :: FirstDangling(ToSet(ids), edges, i)
      && error == if edges[i].source !in ids then UnknownSource(edges[i].source) else UnknownTarget(edges[i].target)
  }

  /** The error is the one of the first check that fails. */
  ghost predicate Explains(ids: seq<Id>, edges: seq<Edge>, error: CompilationError) {
    match error
    case NoNodes => ids == []
    case TooManyNodes => |ids| > MAX_NODES
    case TooManyEdges => ids != [] && |ids| <= MAX_NODES && |edges| > MAX_EDGES
    case UnknownSource(_) => WithinCaps(ids, edges) && NamesDangling(ids, edges, error)
    case UnknownTarget(_) => WithinCaps(ids, edges) && NamesDangling(ids, edges, error)
    case NoEdges => WithinCaps(ids, edges) && |ids| > 1 && edges == []
    case OrphanNodes(xs) =>
      && WithinCaps(ids, edges) && KnownEndpoints(ToSet(ids), edges) && |ids| > 1 && edges != []
      && xs != {} && forall x :: x in xs <==> x in ids && !Touched(edges, x)
    case AgentConfigsMissing(_) => false
  }

  /** A definition has one error at most: the checks are made in one order. */
  lemma ErrorIsUnique(ids: seq<Id>, edges: seq<Edge>, a: CompilationError, b: CompilationError)
    requires Explains(ids, edges, a) && Explains(ids, edges, b)
    ensures a == b && !WellFormed(ids, edges)
  {
    hide KnownEndpoints;
    forall i: nat | FirstDangling(ToSet(ids), edges, i)
      ensures !KnownEndpoints(ToSet(ids), edges) && forall j: nat :: FirstDangling(ToSet(ids), edges, j) ==> j == i
    {
      FirstDanglingIsUnique(ToSet(ids), edges, i);
    }
    if a.OrphanNodes? {
      var x :| x in a.orphans;
      assert b.OrphanNodes? ==> a.orphans == b.orphans;
    } else if a.NoEdges? {
      assert ids[0] in ids && !Touched(edges, ids[0]);
    }
  }

  lemma FirstDanglingIsUnique(ids: set<Id>, edges: seq<Edge>, i: nat)
    requires FirstDangling(ids, edges, i)
    ensures !KnownEndpoints(ids, edges) && forall j: nat :: FirstDangling(ids, edges, j) ==> j == i
  {
    assert edges[i] in edges;
    KnownPrefix(ids, edges, i);
    forall j: nat | FirstDangling(ids, edges, j)
      ensures j == i
    {
      KnownPrefix(ids, edges, j);
    }
  }

  lemma KnownPrefix(ids: set<Id>, edges: seq<Edge>, j: nat)
    requires j <= |edges| && KnownEndpoints(ids, edges[..j])
    ensures forall k :: 0 <= k < j ==> edges[k].source in ids && edges[k].target in ids
  {
    forall k | 0 <= k < j
      ensures edges[k].source in ids && edges[k].target in ids
    {
      assert edges[..j][k] in edges[..j];
    }
  }

  method UnknownEndpoint(ids: seq<Id>, edges: seq<Edge>) returns (error: Option<CompilationError>)
    ensures error == None <==> KnownEndpoints(ToSet(ids), edges)
    ensures error.Some? ==> NamesDangling(ids, edges, error.value)
  {
    for i := 0 to |edges|
      invariant KnownEndpoints(ToSet(ids), edges[..i])
    {
      assert edges[i] in edges;
      if edges[i].source !in ids {
        assert FirstDangling(ToSet(ids), edges, i);
        return Some(UnknownSource(edges[i].source));
      }
      if edges[i].target !in ids {
        assert FirstDangling(ToSet(ids), edges, i);
        return Some(UnknownTarget(edges[i].target));
      }
      assert edges[..i + 1] == edges[..i] + [edges[i]];
    }
    assert edges[..|edges|] == edges;
    error := None;
  }

  method ConnectedNodes(edges: seq<Edge>) returns (connected: set<Id>)
    ensures forall x :: x in connected <==> Touched(edges, x)
  {
    connected := {};
    for i := 0 to |edges|
      invariant forall x :: x in connected <==> Touched(edges[..i], x)
    {
      assert forall e :: e in edges[..i + 1] <==> e in edges[..i] || e == edges[i];
      assert edges[i] in edges[..i + 1];
      connected := connected + {edges[i].source} + {edges[i].target};
    }
    assert edges[..|edges|] == edges;
  }

  method ValidateDefinition(ids: seq<Id>, edges: seq<Edge>) returns (error: Option<CompilationError>)
    ensures error == None <==> WellFormed(ids, edges)
    ensures error.Some? ==> Explains(ids, edges, error.value)
  {
    hide KnownEndpoints, NamesDangling;
    if ids == [] {
      return Some(NoNodes);
    }
    if |ids| > MAX_NODES {
      return Some(TooManyNodes);
    }
    if |edges| > MAX_EDGES {
      return Some(TooManyEdges);
    }
    error := UnknownEndpoint(ids, edges);
    if error.Some? {
      DanglingNames(ids, edges, error.value);
      return;
    }
    if |ids| > 1 && edges == [] {
      assert ids[0] in ids && !Touched(edges, ids[0]);
      return Some(NoEdges);
    }
    var connected := ConnectedNodes(edges);
    if |ids| > 1 {
      var orphans := ToSet(ids) - connected;
      if orphans != {} {
        ghost var x :| x in orphans;
        assert x in ids && !Touched(edges, x);
        return Some(OrphanNodes(orphans));
      }
      forall x | x in ids
        ensures Touched(edges, x)
      {
        assert x !in orphans && x in ToSet(ids);
      }
    }
  }

  lemma DanglingNames(ids: seq<Id>, edges: seq<Edge>, error: CompilationError)
    requires NamesDangling(ids, edges, error)
    ensures error.UnknownSource? || error.UnknownTarget?
  {
  }

  function AgentNodes(nodes: seq<Node>): set<Id> {
    set n | n in nodes && n.IsAgent() :: n.id
  }

  /** The checks of `compile_graph`: the definition, then one stored config per agent node. */
  method Compile(nodes: seq<Node>, edges: seq<Edge>, configs: seq<AgentConfig>)
    returns (error: Option<CompilationError>)
    ensures error == None <==> WellFormed(Ids(nodes), edges) && Configured(nodes, configs)
    ensures error.Some? && error.value.AgentConfigsMissing? ==>
      WellFormed(Ids(nodes), edges) && error.value.missing == set x | x in AgentNodes(nodes) && !HasConfig(configs, x)
    ensures error.Some? && !error.value.AgentConfigsMissing? ==> Explains(Ids(nodes), edges, error.value)
  {
    hide WellFormed, Explains;
    error := ValidateDefinition(Ids(nodes), edges);
    if error.Some? {
      NeverMissing(Ids(nodes), edges, error.value);
      return;
    }
    var missing := set x | x in AgentNodes(nodes) && !HasConfig(configs, x);
    if missing != {} {
      error := Some(AgentConfigsMissing(missing));
      ghost var x :| x in missing;
      ghost var n :| n in nodes && n.IsAgent() && n.id == x;
      assert !HasConfig(configs, n.id);
    } else {
      forall n | n in nodes && n.IsAgent()
        ensures HasConfig(configs, n.id)
      {
        assert n.id in AgentNodes(nodes) && n.id !in missing;
      }
    }
  }

  lemma NeverMissing(ids: seq<Id>, edges: seq<Edge>, error: CompilationError)
    requires Explains(ids, edges, error)
    ensures !error.AgentConfigsMissing?
  {
  }

  /** A graph the builder accepts compiles exactly when it is within the caps and has no dangling edge. */
  lemma AcceptedCompilesIff(nodes: seq<Node>, edges: seq<Edge>, configs: seq<AgentConfig>, cyclicPattern: bool)
    requires Accepted(nodes, edges, configs, cyclicPattern)
    ensures WellFormed(Ids(nodes), edges) && Configured(nodes, configs)
       <==> |nodes| <= MAX_NODES && |edges| <= MAX_EDGES && KnownEndpoints(ToSet(Ids(nodes)), edges)
  {
    assert Passes(nodes, edges, configs, cyclicPattern, Nonempty);
    assert Passes(nodes, edges, configs, cyclicPattern, OrphanFree);
    assert Passes(nodes, edges, configs, cyclicPattern, ConfigsPresent);
    var ids := Ids(nodes);
    forall x | x in ids && |ids| > 1
      ensures Touched(edges, x)
    {
      var i :| 0 <= i < |ids| && ids[i] == x;
      assert nodes[i] in nodes;
    }
  }

  /** On accepted graphs without dangling edges and with distinct ids, the size test is connectivity. */
  lemma AcceptedIsConnected(nodes: seq<Node>, edges: seq<Edge>, configs: seq<AgentConfig>, cyclicPattern: bool)
    requires Accepted(nodes, edges, configs, cyclicPattern)
    requires Distinct(Ids(nodes)) && KnownEndpoints(ToSet(Ids(nodes)), edges)
    ensures Connected(ToSet(Ids(nodes)), edges)
  {
    assert Passes(nodes, edges, configs, cyclicPattern, Nonempty);
    assert Passes(nodes, edges, configs, cyclicPattern, SizeOk);
    var ids := Ids(nodes);
    SizeTestMeansConnected(ids, edges);
    if |ids| == 1 {
      ReachesSelf(Links(ToSet(ids), edges), ids[0]);
    }
  }

  /** The builder accepts, and the compiler refuses, a lone agent with an edge to an unknown id. */
  lemma AcceptedButDangling()
    ensures
      var nodes := [Node(Name("a"), "agent", "", "", "", "")];
      var edges := [Edge(Name("a"), Name("x"), "")];
      var configs := [AgentConfig(Name("a"), false, 100)];
      && Accepted(nodes, edges, configs, false)
      && !WellFormed(Ids(nodes), edges)
  {
    var nodes := [Node(Name("a"), "agent", "", "", "", "")];
    var edges := [Edge(Name("a"), Name("x"), "")];
    var configs := [AgentConfig(Name("a"), false, 100)];
    var arcs := Arcs(ToSet(Ids(nodes)), edges);
    assert edges[0] in edges && edges[0].target !in Ids(nodes);
    CyclicIffSomeFromCycle(arcs);
    assert arcs == {};
    assert !Cyclic(arcs);
    assert configs[0] in configs && nodes[0] in nodes;
    assert HasConfig(configs, nodes[0].id);
    forall check
      ensures Passes(nodes, edges, configs, false, check)
    {
    }
  }
}
