/**
 * GraphDiff: what of a running version survives the change to a candidate. A
 * contract is an opaque value; `plane` stands for all that SameDataPlane
 * compares.
 */
module GraphDiff {
  import opened Wrappers
  import opened GraphModel
  import opened GraphSpecs

  datatype Contract = Contract(plane: int, capabilities: int)

  predicate SameDataPlane(c: Contract, d: Contract) {
    c.plane == d.plane
  }

  type Contracts = map<Id, Contract>

  datatype NodeChange = NodeKept | NodeAdded | NodeRemoved | NodeReplaced | NodeUpdated
  datatype EdgeChange = EdgeKept | EdgeAdded | EdgeRemoved | EdgeRecreated

  predicate IsReplaced(base: Graph, candidate: Graph, n: Id) {
    n in base.nodes && n in candidate.nodes && base.nodes[n].op != candidate.nodes[n].op
  }

  /** The reasons not to keep an edge that is in both versions. */
  predicate MustRecreate(base: Graph, bc: Contracts, candidate: Graph, cc: Contracts, e: Id)
    requires e in base.edges && e in candidate.edges
  {
    var b, c := base.edges[e], candidate.edges[e];
    || b.from != c.from || b.to != c.to
    || IsReplaced(base, candidate, c.from.node) || IsReplaced(base, candidate, c.to.node)
    || b.queue != c.queue || b.feedback != c.feedback
    || (e in bc && e in cc && !SameDataPlane(bc[e], cc[e]))
  }

  function EdgeChangeOf(base: Graph, bc: Contracts, candidate: Graph, cc: Contracts, e: Id): EdgeChange
    requires e in base.edges || e in candidate.edges
  {
    if e !in candidate.edges then EdgeRemoved
    else if e !in base.edges then EdgeAdded
    else if MustRecreate(base, bc, candidate, cc, e) then EdgeRecreated
    else EdgeKept
  }

  /** The input ports of a node, each with its edge: of several edges into a port, the last one listed. */
  function Inputs(es: seq<EdgeSpec>, n: Id): map<string, Id> {
    if es == [] then map[]
    else
      var last, m := es[|es| - 1], Inputs(es[..|es| - 1], n);
      if last.to.node == n then m[last.to.port := last.id] else m
  }

  /** The i-th edge is the last one into the port. */
  predicate Feeds(es: seq<EdgeSpec>, i: int, n: Id, port: string) {
    0 <= i < |es| && es[i].to == PortRef(n, port) && forall j :: i < j < |es| ==> es[j].to != PortRef(n, port)
  }

  lemma {:induction false} LastEdge(es: seq<EdgeSpec>, n: Id, port: string) returns (i: nat)
    requires port in Inputs(es, n)
    ensures Feeds(es, i, n, port) && Inputs(es, n)[port] == es[i].id
    decreases |es|
  {
    i := |es| - 1;
    if es[i].to != PortRef(n, port) {
      i := LastEdge(es[..i], n, port);
    }
  }

  lemma {:induction false} FedPort(es: seq<EdgeSpec>, n: Id, k: nat)
    requires k < |es| && es[k].to.node == n
    ensures es[k].to.port in Inputs(es, n)
  {
    if k < |es| - 1 {
      FedPort(es[..|es| - 1], n, k);
    }
  }

  /** The node is in both versions with the same operator. */
  predicate Stays(base: Graph, candidate: Graph, n: Id) {
    n in base.nodes && n in candidate.nodes && base.nodes[n].op == candidate.nodes[n].op
  }

  /** A node that stays is kept if it runs as before and reads the same edges, none of them recreated. */
  predicate Unchanged(b: NodeSpec, c: NodeSpec, bin: map<string, Id>, cin: map<string, Id>,
        edges: map<Id, EdgeChange>) {
    && b.executor == c.executor && b.parallelism == c.parallelism && bin == cin
    && forall port :: port in cin && cin[port] in edges ==> !edges[cin[port]].EdgeRecreated?
  }

  function ReusedNodes(base: Graph, candidate: Graph): set<Id> {
    set n | n in base.nodes && Stays(base, candidate, n)
  }

  function ReusedEdges(base: Graph, bc: Contracts, candidate: Graph, cc: Contracts): set<Id> {
    set e | e in base.edges.Keys + candidate.edges.Keys && EdgeChangeOf(base, bc, candidate, cc, e).EdgeKept?
  }

  /** Both ends of every kept edge are reused. */
  lemma {:induction false} KeptEdgesJoinReusedNodes(base: Graph, bc: Contracts, candidate: Graph, cc: Contracts, e: Id)
    requires NoDangling(base) && NoDangling(candidate) && e in ReusedEdges(base, bc, candidate, cc)
    ensures candidate.edges[e].from.node in ReusedNodes(base, candidate)
    ensures candidate.edges[e].to.node in ReusedNodes(base, candidate)
  {
    var c := candidate.edges[e];
    assert base.edges[e].from == c.from && base.edges[e].to == c.to;
    assert !IsReplaced(base, candidate, c.from.node) && !IsReplaced(base, candidate, c.to.node);
  }

  // -------------------------------------------------------------------------
  // Compute

  /** The nodes that keep their id and change their operator. */
  method Replaced(base: GraphSpec, candidate: GraphSpec) returns (replaced: set<Id>)
    requires base.Lists() && candidate.Lists()
    ensures forall n :: n in replaced <==> IsReplaced(base.model, candidate.model, n)
  {
    replaced := {};
    for i := 0 to |base.nodes|
      invariant forall n :: n in replaced <==> IsReplaced(base.model, candidate.model, n) && n in NodeIds(base.nodes[..i])
    {
      var b := base.nodes[i];
      assert b in base.nodes;
      var c := candidate.FindNode(b.id);
      if c.Some? && b.op != c.value.op {
        replaced := replaced + {b.id};
      }
      OneMoreNode(base.nodes, i);
    }
    AllNodes(base);
  }

  ghost function NodeIds(ns: seq<NodeSpec>): set<Id> {
    set i | 0 <= i < |ns| :: ns[i].id
  }

  ghost function EdgeIds(es: seq<EdgeSpec>): set<Id> {
    set i | 0 <= i < |es| :: es[i].id
  }

  lemma {:induction false} OneMoreNode(ns: seq<NodeSpec>, i: nat)
    requires i < |ns|
    ensures NodeIds(ns[..i + 1]) == NodeIds(ns[..i]) + {ns[i].id}
  {
    assert ns[..i + 1] == ns[..i] + [ns[i]];
    forall n | n in NodeIds(ns[..i]) + {ns[i].id} ensures n in NodeIds(ns[..i + 1]) {
      var k :| 0 <= k <= i && ns[k].id == n;
      assert ns[..i + 1][k].id == n;
    }
  }

  lemma {:induction false} OneMoreEdge(es: seq<EdgeSpec>, i: nat)
    requires i < |es|
    ensures EdgeIds(es[..i + 1]) == EdgeIds(es[..i]) + {es[i].id}
  {
    assert es[..i + 1] == es[..i] + [es[i]];
    forall e | e in EdgeIds(es[..i]) + {es[i].id} ensures e in EdgeIds(es[..i + 1]) {
      var k :| 0 <= k <= i && es[k].id == e;
      assert es[..i + 1][k].id == e;
    }
  }

  lemma {:induction false} OneMoreKey<V>(m: map<Id, V>, base: set<Id>, ids: set<Id>, id: Id, v: V)
    requires m.Keys == base + ids
    ensures m[id := v].Keys == base + (ids + {id})
    ensures id in base ==> m.Keys == base + (ids + {id})
  {
  }

  lemma {:induction false} AllNodes(g: GraphSpec)
    requires g.Lists()
    ensures NodeIds(g.nodes[..|g.nodes|]) == g.model.nodes.Keys
  {
    assert g.nodes[..|g.nodes|] == g.nodes;
    forall n ensures n in NodeIds(g.nodes) <==> n in g.model.nodes.Keys {
      if n in g.model.nodes {
        assert g.model.nodes[n] in g.nodes;
      }
      if n in NodeIds(g.nodes) {
        var i :| 0 <= i < |g.nodes| && g.nodes[i].id == n;
        assert g.nodes[i] in g.nodes;
      }
    }
  }

  lemma {:induction false} AllEdges(g: GraphSpec)
    requires g.Lists()
    ensures EdgeIds(g.edges[..|g.edges|]) == g.model.edges.Keys
  {
    assert g.edges[..|g.edges|] == g.edges;
    forall e ensures e in EdgeIds(g.edges) <==> e in g.model.edges.Keys {
      if e in g.model.edges {
        assert g.model.edges[e] in g.edges;
      }
      if e in EdgeIds(g.edges) {
        var i :| 0 <= i < |g.edges| && g.edges[i].id == e;
        assert g.edges[i] in g.edges;
      }
    }
  }

  /** The loop body over the edges of the base. */
  method CompareEdge(b: EdgeSpec, bc: Contracts, candidate: GraphSpec, cc: Contracts, replaced: set<Id>,
        ghost base: Graph)
    returns (change: EdgeChange)
    requires candidate.Lists() && b.id in base.edges && base.edges[b.id] == b
    requires forall n :: n in replaced <==> IsReplaced(base, candidate.model, n)
    ensures change == EdgeChangeOf(base, bc, candidate.model, cc, b.id)
  {
    var found := candidate.FindEdge(b.id);
    if found.None? {
      return EdgeRemoved;
    }
    var c := found.value;
    var why := false;
    if b.from != c.from || b.to != c.to { why := true; }
    if c.from.node in replaced { why := true; }
    if c.to.node in replaced { why := true; }
    if b.queue != c.queue { why := true; }
    if b.feedback != c.feedback { why := true; }
    if b.id in bc && b.id in cc && !SameDataPlane(bc[b.id], cc[b.id]) { why := true; }
    change := if why then EdgeRecreated else EdgeKept;
  }

  ghost predicate EdgesCompared(base: Graph, bc: Contracts, candidate: Graph, cc: Contracts,
        edges: map<Id, EdgeChange>) {
    forall e :: e in edges ==>
      (e in base.edges || e in candidate.edges) && edges[e] == EdgeChangeOf(base, bc, candidate, cc, e)
  }

  lemma {:induction false} EdgeNoted(base: Graph, bc: Contracts, candidate: Graph, cc: Contracts,
        edges: map<Id, EdgeChange>, e: Id)
    requires EdgesCompared(base, bc, candidate, cc, edges) && (e in base.edges || e in candidate.edges)
    ensures EdgesCompared(base, bc, candidate, cc, edges[e := EdgeChangeOf(base, bc, candidate, cc, e)])
  {
  }

  method CompareEdges(base: GraphSpec, bc: Contracts, candidate: GraphSpec, cc: Contracts, replaced: set<Id>)
    returns (edges: map<Id, EdgeChange>)
    requires base.Lists() && candidate.Lists()
    requires forall n :: n in replaced <==> IsReplaced(base.model, candidate.model, n)
    ensures edges.Keys == base.model.edges.Keys + candidate.model.edges.Keys
    ensures EdgesCompared(base.model, bc, candidate.model, cc, edges)
  {
    edges := map[];
    for i := 0 to |base.edges|
      invariant EdgesCompared(base.model, bc, candidate.model, cc, edges)
      invariant edges.Keys == EdgeIds(base.edges[..i])
    {
      var b := base.edges[i];
      assert b in base.edges;
      var change := CompareEdge(b, bc, candidate, cc, replaced, base.model);
      EdgeNoted(base.model, bc, candidate.model, cc, edges, b.id);
      edges := edges[b.id := change];
      OneMoreEdge(base.edges, i);
    }
    AllEdges(base);
    AllEdges(candidate);
    assert candidate.edges[..|candidate.edges|] == candidate.edges;
    edges := AddNewEdges(base, bc, candidate.edges, cc, edges, candidate.model);
  }

  lemma {:induction false} NewEdgeNoted(base: Graph, bc: Contracts, candidate: Graph, cc: Contracts,
        specs: seq<EdgeSpec>, edges: map<Id, EdgeChange>, i: nat)
    requires i < |specs| && specs[i].id in candidate.edges && EdgesCompared(base, bc, candidate, cc, edges)
    requires edges.Keys == base.edges.Keys + EdgeIds(specs[..i])
    ensures var id := specs[i].id;
            var now := if id in base.edges then edges else edges[id := EdgeAdded];
            EdgesCompared(base, bc, candidate, cc, now) && now.Keys == base.edges.Keys + EdgeIds(specs[..i + 1])
  {
    var id := specs[i].id;
    OneMoreKey(edges, base.edges.Keys, EdgeIds(specs[..i]), id, EdgeAdded);
    OneMoreEdge(specs, i);
    if id !in base.edges {
      EdgeNoted(base, bc, candidate, cc, edges, id);
    }
  }

  /** The loop over the edges of the candidate. */
  method AddNewEdges(base: GraphSpec, bc: Contracts, specs: seq<EdgeSpec>, cc: Contracts,
        compared: map<Id, EdgeChange>, ghost candidate: Graph)
    returns (edges: map<Id, EdgeChange>)
    requires base.Lists() && compared.Keys == base.model.edges.Keys
    requires forall i :: 0 <= i < |specs| ==> specs[i].id in candidate.edges
    requires EdgesCompared(base.model, bc, candidate, cc, compared)
    ensures edges.Keys == base.model.edges.Keys + EdgeIds(specs)
    ensures EdgesCompared(base.model, bc, candidate, cc, edges)
  {
    edges := compared;
    for i := 0 to |specs|
      invariant EdgesCompared(base.model, bc, candidate, cc, edges)
      invariant edges.Keys == base.model.edges.Keys + EdgeIds(specs[..i])
    {
      var found := base.FindEdge(specs[i].id);
      NewEdgeNoted(base.model, bc, candidate, cc, specs, edges, i);
      if found.None? {
        edges := edges[specs[i].id := EdgeAdded];
      }
    }
    assert specs[..|specs|] == specs;
  }

  /** The loop over the edges of a vector that collects the inputs of a node. */
  method InputsOf(es: seq<EdgeSpec>, n: Id) returns (m: map<string, Id>)
    ensures m == Inputs(es, n)
  {
    m := map[];
    for i := 0 to |es|
      invariant m == Inputs(es[..i], n)
    {
      assert es[..i + 1][..i] == es[..i];
      if es[i].to.node == n {
        m := m[es[i].to.port := es[i].id];
      }
    }
    assert es[..|es|] == es;
  }

  method SameInputs(bin: map<string, Id>, cin: map<string, Id>, edges: map<Id, EdgeChange>) returns (same: bool)
    ensures same <==> bin == cin && forall port :: port in cin && cin[port] in edges ==> !edges[cin[port]].EdgeRecreated?
  {
    same := true;
    var rest := cin.Keys;
    while rest != {}
      invariant rest <= cin.Keys
      invariant same <==> forall port :: port in cin.Keys - rest ==> SameInput(bin, cin, edges, port)
    {
      var port :| port in rest;
      if port !in bin {
        same := false;
      } else if bin[port] != cin[port] {
        same := false;
      } else if cin[port] in edges && edges[cin[port]].EdgeRecreated? {
        same := false;
      }
      assert port in cin.Keys - (rest - {port});
      rest := rest - {port};
    }
    ghost var held := same;
    rest := bin.Keys;
    while rest != {}
      invariant rest <= bin.Keys
      invariant same <==> held && forall port :: port in bin.Keys - rest ==> port in cin
    {
      var port :| port in rest;
      if port !in cin {
        same := false;
      }
      assert port in bin.Keys - (rest - {port});
      rest := rest - {port};
    }
    assert same ==> forall port :: port in cin.Keys ==> SameInput(bin, cin, edges, port);
    assert bin.Keys - {} == bin.Keys && cin.Keys - {} == cin.Keys;
    if same {
      assert bin == cin;
    } else if bin == cin {
      var port :| port in cin.Keys && !SameInput(bin, cin, edges, port);
    }
  }

  predicate SameInput(bin: map<string, Id>, cin: map<string, Id>, edges: map<Id, EdgeChange>, port: string)
    requires port in cin
  {
    port in bin && bin[port] == cin[port] && !(cin[port] in edges && edges[cin[port]].EdgeRecreated?)
  }

  /** The nodes in both versions that are unchanged. */
  ghost function SameNodes(base: Graph, bes: seq<EdgeSpec>, candidate: Graph, ces: seq<EdgeSpec>,
        edges: map<Id, EdgeChange>): set<Id> {
    set n | n in base.nodes && n in candidate.nodes
            && Unchanged(base.nodes[n], candidate.nodes[n], Inputs(bes, n), Inputs(ces, n), edges)
  }

  ghost function NodeChangeOf(base: Graph, candidate: Graph, same: set<Id>, n: Id): NodeChange
    requires n in base.nodes || n in candidate.nodes
  {
    if n !in candidate.nodes then NodeRemoved
    else if n !in base.nodes then NodeAdded
    else if !Stays(base, candidate, n) then NodeReplaced
    else if n in same then NodeKept
    else NodeUpdated
  }

  ghost predicate NodesCompared(base: Graph, candidate: Graph, same: set<Id>, nodes: map<Id, NodeChange>) {
    forall n :: n in nodes ==>
      (n in base.nodes || n in candidate.nodes) && nodes[n] == NodeChangeOf(base, candidate, same, n)
  }

  lemma {:induction false} NodeNoted(base: Graph, candidate: Graph, same: set<Id>, nodes: map<Id, NodeChange>, n: Id)
    requires NodesCompared(base, candidate, same, nodes) && (n in base.nodes || n in candidate.nodes)
    ensures NodesCompared(base, candidate, same, nodes[n := NodeChangeOf(base, candidate, same, n)])
  {
  }

  /** The loop body over the nodes of the base. */
  method CompareNode(b: NodeSpec, base: GraphSpec, candidate: GraphSpec,
        edges: map<Id, EdgeChange>) returns (change: NodeChange)
    requires base.Lists() && candidate.Lists() && b in base.nodes
    ensures change == NodeChangeOf(base.model, candidate.model,
                                   SameNodes(base.model, base.edges, candidate.model, candidate.edges, edges), b.id)
  {
    var found := candidate.FindNode(b.id);
    if found.None? {
      return NodeRemoved;
    }
    var c := found.value;
    if b.op != c.op {
      return NodeReplaced;
    }
    var why := false;
    if b.executor != c.executor { why := true; }
    if b.parallelism != c.parallelism { why := true; }
    var bin := InputsOf(base.edges, b.id);
    var cin := InputsOf(candidate.edges, b.id);
    var same := SameInputs(bin, cin, edges);
    if !same { why := true; }
    change := if why then NodeUpdated else NodeKept;
  }

  method CompareNodes(base: GraphSpec, candidate: GraphSpec,
        edges: map<Id, EdgeChange>) returns (nodes: map<Id, NodeChange>)
    requires base.Lists() && candidate.Lists()
    ensures nodes.Keys == base.model.nodes.Keys + candidate.model.nodes.Keys
    ensures NodesCompared(base.model, candidate.model,
                          SameNodes(base.model, base.edges, candidate.model, candidate.edges, edges), nodes)
  {
    nodes := map[];
    ghost var same := SameNodes(base.model, base.edges, candidate.model, candidate.edges, edges);
    for i := 0 to |base.nodes|
      invariant NodesCompared(base.model, candidate.model, same, nodes)
      invariant nodes.Keys == NodeIds(base.nodes[..i])
    {
      var b := base.nodes[i];
      assert b in base.nodes;
      var change := CompareNode(b, base, candidate, edges);
      NodeNoted(base.model, candidate.model, same, nodes, b.id);
      nodes := nodes[b.id := change];
      OneMoreNode(base.nodes, i);
    }
    AllNodes(base);
    AllNodes(candidate);
    assert candidate.nodes[..|candidate.nodes|] == candidate.nodes;
    nodes := AddNewNodes(base, candidate.nodes, nodes, candidate.model, same);
  }

  lemma {:induction false} NewNodeNoted(base: Graph, candidate: Graph, specs: seq<NodeSpec>, same: set<Id>,
        nodes: map<Id, NodeChange>, i: nat)
    requires i < |specs| && specs[i].id in candidate.nodes && NodesCompared(base, candidate, same, nodes)
    requires nodes.Keys == base.nodes.Keys + NodeIds(specs[..i])
    ensures var id := specs[i].id;
            var now := if id in base.nodes then nodes else nodes[id := NodeAdded];
            NodesCompared(base, candidate, same, now) && now.Keys == base.nodes.Keys + NodeIds(specs[..i + 1])
  {
    var id := specs[i].id;
    OneMoreKey(nodes, base.nodes.Keys, NodeIds(specs[..i]), id, NodeAdded);
    OneMoreNode(specs, i);
    if id !in base.nodes {
      NodeNoted(base, candidate, same, nodes, id);
    }
  }

  /** The loop over the nodes of the candidate. */
  method AddNewNodes(base: GraphSpec, specs: seq<NodeSpec>, compared: map<Id, NodeChange>, ghost candidate: Graph,
        ghost same: set<Id>)
    returns (nodes: map<Id, NodeChange>)
    requires base.Lists() && compared.Keys == base.model.nodes.Keys
    requires forall i :: 0 <= i < |specs| ==> specs[i].id in candidate.nodes
    requires NodesCompared(base.model, candidate, same, compared)
    ensures nodes.Keys == base.model.nodes.Keys + NodeIds(specs)
    ensures NodesCompared(base.model, candidate, same, nodes)
  {
    nodes := compared;
    for i := 0 to |specs|
      invariant NodesCompared(base.model, candidate, same, nodes)
      invariant nodes.Keys == base.model.nodes.Keys + NodeIds(specs[..i])
    {
      var found := base.FindNode(specs[i].id);
      NewNodeNoted(base.model, candidate, specs, same, nodes, i);
      if found.None? {
        nodes := nodes[specs[i].id := NodeAdded];
      }
    }
    assert specs[..|specs|] == specs;
  }

  datatype Diff = Diff(nodes: map<Id, NodeChange>, edges: map<Id, EdgeChange>)

  /** The entries describe the two graphs: one per id of either, each as compared. */
  ghost predicate IsDiff(base: Graph, bes: seq<EdgeSpec>, bc: Contracts, candidate: Graph, ces: seq<EdgeSpec>,
        cc: Contracts, d: Diff) {
    && d.edges.Keys == base.edges.Keys + candidate.edges.Keys && EdgesCompared(base, bc, candidate, cc, d.edges)
    && d.nodes.Keys == base.nodes.Keys + candidate.nodes.Keys
    && NodesCompared(base, candidate, SameNodes(base, bes, candidate, ces, d.edges), d.nodes)
  }

  method Compute(base: GraphSpec, bc: Contracts, candidate: GraphSpec, cc: Contracts) returns (d: Diff)
    requires base.Lists() && candidate.Lists()
    ensures IsDiff(base.model, base.edges, bc, candidate.model, candidate.edges, cc, d)
  {
    var replaced := Replaced(base, candidate);
    var edges := CompareEdges(base, bc, candidate, cc, replaced);
    var nodes := CompareNodes(base, candidate, edges);
    d := Diff(nodes, edges);
  }

  // -------------------------------------------------------------------------
  // What the entries mean

  /** The queries of the diff are the reuse sets: a node is reused if it stays, an edge if it is kept. */
  lemma {:induction false} DiffDecidesReuse(base: Graph, bes: seq<EdgeSpec>, bc: Contracts, candidate: Graph,
        ces: seq<EdgeSpec>, cc: Contracts, d: Diff)
    requires IsDiff(base, bes, bc, candidate, ces, cc, d)
    ensures ReusedNodes(base, candidate) == set n | n in d.nodes && (d.nodes[n].NodeKept? || d.nodes[n].NodeUpdated?)
    ensures ReusedEdges(base, bc, candidate, cc) == set e | e in d.edges && d.edges[e].EdgeKept?
  {
    forall n | n in ReusedNodes(base, candidate) ensures n in d.nodes && (d.nodes[n].NodeKept? || d.nodes[n].NodeUpdated?) {
      assert n in d.nodes;
    }
    forall n | n in d.nodes && (d.nodes[n].NodeKept? || d.nodes[n].NodeUpdated?) ensures n in ReusedNodes(base, candidate) {
    }
  }

  /** The edge that a kept node reads at a port, the last one listed, is kept and was read there before. */
  lemma {:induction false} KeptNodesReadKeptEdges(base: Graph, bes: seq<EdgeSpec>, bc: Contracts, candidate: Graph,
        ces: seq<EdgeSpec>, cc: Contracts, d: Diff, n: Id, port: string)
    requires ListsEdges(bes, base.edges) && ListsEdges(ces, candidate.edges) && IsDiff(base, bes, bc, candidate, ces, cc, d)
    requires n in d.nodes && d.nodes[n].NodeKept? && port in Inputs(ces, n)
    ensures port in Inputs(bes, n) && Inputs(bes, n)[port] == Inputs(ces, n)[port]
    ensures Inputs(ces, n)[port] in ReusedEdges(base, bc, candidate, cc)
  {
    var e := Inputs(ces, n)[port];
    assert Unchanged(base.nodes[n], candidate.nodes[n], Inputs(bes, n), Inputs(ces, n), d.edges);
    var i := LastEdge(ces, n, port);
    var j := LastEdge(bes, n, port);
    assert ces[i] in ces && bes[j] in bes;
    assert e in base.edges && e in candidate.edges && e in d.edges;
  }

  /** The edge leads into the node, and another one listed behind it leads into the same port. */
  predicate Shadowed(candidate: Graph, ces: seq<EdgeSpec>, n: Id, e: Id) {
    && e in candidate.edges && candidate.edges[e].to.node == n
    && !(candidate.edges[e].to.port in Inputs(ces, n) && Inputs(ces, n)[candidate.edges[e].to.port] == e)
  }

  /**
   * All edges into a kept node are kept exactly when those are that are not the
   * last ones listed on their ports.
   */
  lemma {:induction false} KeptNodesKeepTheirInputs(base: Graph, bes: seq<EdgeSpec>, bc: Contracts, candidate: Graph,
        ces: seq<EdgeSpec>, cc: Contracts, d: Diff, n: Id)
    requires ListsEdges(bes, base.edges) && ListsEdges(ces, candidate.edges) && IsDiff(base, bes, bc, candidate, ces, cc, d)
    requires n in d.nodes && d.nodes[n].NodeKept?
    ensures (forall e :: e in candidate.edges && candidate.edges[e].to.node == n ==> e in ReusedEdges(base, bc, candidate, cc))
            <==> forall e :: Shadowed(candidate, ces, n, e) ==> e in ReusedEdges(base, bc, candidate, cc)
  {
    forall e | e in candidate.edges && candidate.edges[e].to.node == n && !Shadowed(candidate, ces, n, e)
      ensures e in ReusedEdges(base, bc, candidate, cc)
    {
      KeptNodesReadKeptEdges(base, bes, bc, candidate, ces, cc, d, n, candidate.edges[e].to.port);
    }
  }

  /** Each input port has one edge at most. */
  ghost predicate SingleInputs(g: Graph, n: Id) {
    forall e, f :: e in g.edges && f in g.edges && g.edges[e].to.node == n && g.edges[e].to == g.edges[f].to ==> e == f
  }

  /** With one edge per port no edge is shadowed. */
  lemma {:induction false} SingleInputsShow(candidate: Graph, ces: seq<EdgeSpec>, n: Id, e: Id)
    requires ListsEdges(ces, candidate.edges) && SingleInputs(candidate, n)
    ensures !Shadowed(candidate, ces, n, e)
  {
    if e in candidate.edges && candidate.edges[e].to.node == n {
      var k :| 0 <= k < |ces| && ces[k] == candidate.edges[e];
      FedPort(ces, n, k);
      var i := LastEdge(ces, n, candidate.edges[e].to.port);
      assert ces[i] in ces;
    }
  }

  /** Nothing changes between a graph and itself. */
  lemma {:induction false} SameGraphIsKept(g: Graph, es: seq<EdgeSpec>, c: Contracts, d: Diff)
    requires IsDiff(g, es, c, g, es, c, d)
    ensures d.nodes.Keys == g.nodes.Keys && forall n :: n in d.nodes ==> d.nodes[n].NodeKept?
    ensures d.edges.Keys == g.edges.Keys && forall e :: e in d.edges ==> d.edges[e].EdgeKept?
  {
    assert forall e :: e in g.edges ==> !MustRecreate(g, c, g, c, e);
  }

  lemma {:induction false} SameEdgesAreKept(g: Graph, h: Graph, c: Contracts, edges: map<Id, EdgeChange>, e: Id)
    requires h.edges == g.edges && (forall n :: !IsReplaced(g, h, n)) && EdgesCompared(g, c, h, c, edges) && e in edges
    ensures edges[e].EdgeKept?
  {
    assert !MustRecreate(g, c, h, c, e);
  }

  /** Only the operator decides: new options on the same operator leave the instance in place. */
  lemma {:induction false} OptionsAloneDoNotReplace(g: Graph, es: seq<EdgeSpec>, c: Contracts, h: Graph, n: Id,
        options: Json, d: Diff)
    requires n in g.nodes && h == Graph(g.nodes[n := g.nodes[n].(options := options)], g.edges) && IsDiff(g, es, c, h, es, c, d)
    ensures n in d.nodes && d.nodes[n].NodeKept?
  {
    forall e | e in d.edges ensures d.edges[e].EdgeKept? {
      SameEdgesAreKept(g, h, c, d.edges, e);
    }
    assert Unchanged(g.nodes[n], h.nodes[n], Inputs(es, n), Inputs(es, n), d.edges);
    assert n in d.nodes;
  }

  lemma {:induction false} LastOfTwo(e: EdgeSpec, f: EdgeSpec, n: Id)
    requires e.to == f.to && e.to.node == n
    ensures Inputs([f, e], n) == Inputs([e], n) == map[e.to.port := e.id]
  {
    assert [f, e][..1] == [f] && [f][..0] == [] && [e][..0] == [];
    assert Inputs([f, e], n) == Inputs([f], n)[e.to.port := e.id];
    assert Inputs([f], n) == map[f.to.port := f.id];
  }

  /** On a port with several edges a node counts as kept though one of them, from another node, is new. */
  lemma {:induction false} KeptWithANewInput(nodes: map<Id, NodeSpec>, n: Id, e: EdgeSpec, f: EdgeSpec, d: Diff)
    requires n in nodes && e.from.node in nodes && f.from.node in nodes
    requires e.from.node != n && f.from.node != n && e.from.node != f.from.node
    requires e.id != f.id && e.to == f.to && e.to.node == n
    requires IsDiff(Graph(nodes, map[e.id := e]), [e], map[], Graph(nodes, map[e.id := e, f.id := f]), [f, e], map[], d)
    ensures d.nodes[n].NodeKept? && d.edges[f.id].EdgeAdded?
  {
    var b, c := Graph(nodes, map[e.id := e]), Graph(nodes, map[e.id := e, f.id := f]);
    LastOfTwo(e, f, n);
    assert !MustRecreate(b, map[], c, map[], e.id);
    assert e.id in d.edges && f.id in d.edges && n in d.nodes;
    assert d.edges[e.id].EdgeKept?;
    assert Unchanged(nodes[n], nodes[n], Inputs([e], n), Inputs([f, e], n), d.edges);
  }

  // -------------------------------------------------------------------------
  // The diff in terms of the two graphs alone

  /** What each edge of either graph is said to become, and why. */
  lemma {:induction false} EdgeFates(base: Graph, bes: seq<EdgeSpec>, bc: Contracts, candidate: Graph,
                                     ces: seq<EdgeSpec>, cc: Contracts, d: Diff, e: Id)
    requires IsDiff(base, bes, bc, candidate, ces, cc, d)
    ensures e in d.edges <==> e in base.edges || e in candidate.edges
    ensures e in d.edges ==> (d.edges[e].EdgeRemoved? <==> e !in candidate.edges)
    ensures e in d.edges ==> (d.edges[e].EdgeAdded? <==> e !in base.edges)
    ensures e in d.edges ==>
              (d.edges[e].EdgeKept? <==>
                 && e in base.edges && e in candidate.edges
                 && base.edges[e].from == candidate.edges[e].from && base.edges[e].to == candidate.edges[e].to
                 && base.edges[e].queue == candidate.edges[e].queue
                 && base.edges[e].feedback == candidate.edges[e].feedback
                 && (forall n :: n in base.nodes && n in candidate.nodes && Ends(candidate.edges[e], n) ==>
                       base.nodes[n].op == candidate.nodes[n].op)
                 && (e in bc && e in cc ==> bc[e].plane == cc[e].plane))
  {
    assert e in d.edges.Keys <==> e in base.edges.Keys || e in candidate.edges.Keys;
  }

  /** The last edge listed into each port of the node is the same in both lists. */
  ghost predicate SameFeeds(bes: seq<EdgeSpec>, ces: seq<EdgeSpec>, n: Id) {
    && (forall i, port :: Feeds(bes, i, n, port) ==> FedBy(ces, n, port, bes[i].id))
    && (forall i, port :: Feeds(ces, i, n, port) ==> FedBy(bes, n, port, ces[i].id))
  }

  ghost predicate FedBy(es: seq<EdgeSpec>, n: Id, port: string, e: Id) {
    exists j :: Feeds(es, j, n, port) && es[j].id == e
  }

  lemma {:induction false} InputsAt(es: seq<EdgeSpec>, n: Id, port: string, e: Id)
    ensures port in Inputs(es, n) && Inputs(es, n)[port] == e <==> FedBy(es, n, port, e)
  {
    if port in Inputs(es, n) && Inputs(es, n)[port] == e {
      var i := LastEdge(es, n, port);
    }
    if FedBy(es, n, port, e) {
      var j :| Feeds(es, j, n, port) && es[j].id == e;
      FedPort(es, n, j);
      var i := LastEdge(es, n, port);
      assert i == j;
    }
  }

  lemma {:induction false} SameInputsIff(bes: seq<EdgeSpec>, ces: seq<EdgeSpec>, n: Id)
    ensures Inputs(bes, n) == Inputs(ces, n) <==> SameFeeds(bes, ces, n)
  {
    var b, c := Inputs(bes, n), Inputs(ces, n);
    if b == c {
      forall i, port | Feeds(bes, i, n, port) ensures FedBy(ces, n, port, bes[i].id) {
        InputsAt(bes, n, port, bes[i].id);
        InputsAt(ces, n, port, bes[i].id);
      }
      forall i, port | Feeds(ces, i, n, port) ensures FedBy(bes, n, port, ces[i].id) {
        InputsAt(ces, n, port, ces[i].id);
        InputsAt(bes, n, port, ces[i].id);
      }
    }
    if SameFeeds(bes, ces, n) {
      forall port | port in b ensures port in c && c[port] == b[port] {
        var i := LastEdge(bes, n, port);
        InputsAt(ces, n, port, bes[i].id);
      }
      forall port | port in c ensures port in b {
        var i := LastEdge(ces, n, port);
        InputsAt(bes, n, port, ces[i].id);
      }
      assert b.Keys == c.Keys;
    }
  }

  ghost predicate ReadsRecreated(es: seq<EdgeSpec>, n: Id, edges: map<Id, EdgeChange>) {
    exists i, port :: Feeds(es, i, n, port) && es[i].id in edges && edges[es[i].id].EdgeRecreated?
  }

  lemma {:induction false} ReadsRecreatedIff(es: seq<EdgeSpec>, n: Id, edges: map<Id, EdgeChange>)
    ensures ReadsRecreated(es, n, edges) <==>
            exists port :: port in Inputs(es, n) && Inputs(es, n)[port] in edges && edges[Inputs(es, n)[port]].EdgeRecreated?
  {
    if i, port :| Feeds(es, i, n, port) && es[i].id in edges && edges[es[i].id].EdgeRecreated? {
      InputsAt(es, n, port, es[i].id);
    }
    if port :| port in Inputs(es, n) && Inputs(es, n)[port] in edges && edges[Inputs(es, n)[port]].EdgeRecreated? {
      var i := LastEdge(es, n, port);
    }
  }

  /** What each node of either graph is said to become, and why; options and labels play no part. */
  lemma {:induction false} NodeFates(base: Graph, bes: seq<EdgeSpec>, bc: Contracts, candidate: Graph,
                                     ces: seq<EdgeSpec>, cc: Contracts, d: Diff, n: Id)
    requires IsDiff(base, bes, bc, candidate, ces, cc, d)
    ensures n in d.nodes <==> n in base.nodes || n in candidate.nodes
    ensures n in d.nodes ==> (d.nodes[n].NodeRemoved? <==> n !in candidate.nodes)
    ensures n in d.nodes ==> (d.nodes[n].NodeAdded? <==> n !in base.nodes)
    ensures n in d.nodes ==>
              (d.nodes[n].NodeReplaced? <==>
                 n in base.nodes && n in candidate.nodes && base.nodes[n].op != candidate.nodes[n].op)
    ensures n in d.nodes ==>
              (d.nodes[n].NodeKept? <==>
                 && n in base.nodes && n in candidate.nodes && base.nodes[n].op == candidate.nodes[n].op
                 && base.nodes[n].executor == candidate.nodes[n].executor
                 && base.nodes[n].parallelism == candidate.nodes[n].parallelism
                 && SameFeeds(bes, ces, n) && !ReadsRecreated(ces, n, d.edges))
  {
    assert n in d.nodes.Keys <==> n in base.nodes.Keys || n in candidate.nodes.Keys;
    SameInputsIff(bes, ces, n);
    ReadsRecreatedIff(ces, n, d.edges);
  }
}
