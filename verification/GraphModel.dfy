/**
 * A graph specification seen as a value: nodes and edges by their external id.
 * The operations are the four primitives of GraphSpec; each is partial exactly
 * where the primitive reports an error.
 */
module GraphModel {
  import opened Wrappers

  type Id = string
  type Json = string

  datatype OperatorKey = OperatorKey(typeName: string, version: string)
  datatype ExecutorKind = Auto | Cpu | Gpu
  datatype DropPolicy = Block | DropOldest | DropNewest
  datatype SyncPolicy = Aligned | Latest | Any
  datatype RemovePolicy = Drain | Fast
  datatype RemoveMode = Disconnect | Bypass

  datatype ExecutorSpec = ExecutorSpec(kind: ExecutorKind, deviceId: Option<int>)
  datatype NodeSpec = NodeSpec(
    id: Id, op: OperatorKey, executor: ExecutorSpec, parallelism: nat, options: Json,
    labels: map<string, string>)
  datatype PortRef = PortRef(node: Id, port: string)
  datatype QueueSpec = QueueSpec(capacity: nat, policy: DropPolicy, maxPacketBytes: Option<nat>)
  datatype EdgeSpec = EdgeSpec(
    id: Id, from: PortRef, to: PortRef, queue: QueueSpec, sync: Option<SyncPolicy>, feedback: bool)

  datatype Graph = Graph(nodes: map<Id, NodeSpec>, edges: map<Id, EdgeSpec>)

  // -------------------------------------------------------------------------
  // Identifiers

  predicate IsAlpha(c: char) {
    'A' <= c <= 'Z' || 'a' <= c <= 'z'
  }

  predicate IsIdChar(c: char) {
    IsAlpha(c) || '0' <= c <= '9' || c == '_' || c == '.' || c == '-'
  }

  /** ^[A-Za-z][A-Za-z0-9_.-]{0,127}$ */
  predicate IsValidStableId(id: string) {
    && 0 < |id| <= 128
    && IsAlpha(id[0])
    && forall i :: 1 <= i < |id| ==> IsIdChar(id[i])
  }

  function DeriveEdgeId(from: PortRef, to: PortRef): Id {
    from.node + "." + from.port + "->" + to.node + "." + to.port
  }

  /** An edge without an id gets the one derived from its ends. */
  function WithId(e: EdgeSpec): EdgeSpec {
    if e.id == "" then e.(id := DeriveEdgeId(e.from, e.to)) else e
  }

  lemma {:induction false} WithIdTwice(e: EdgeSpec)
    ensures WithId(WithId(e)) == WithId(e)
  {
    assert |DeriveEdgeId(e.from, e.to)| >= 4;
  }

  // -------------------------------------------------------------------------
  // Local checks

  predicate NodeOk(n: NodeSpec) {
    && IsValidStableId(n.id)
    && n.op.typeName != ""
    && n.parallelism != 0
    && (n.executor.kind != Gpu ==> n.executor.deviceId.None?)
  }

  predicate EdgeOk(e: EdgeSpec) {
    && (IsValidStableId(e.id) || e.id == DeriveEdgeId(e.from, e.to))
    && e.from.port != "" && e.to.port != ""
    && e.queue.capacity != 0
    && e.queue.maxPacketBytes != Some(0)
  }

  predicate SamePair(e: EdgeSpec, f: EdgeSpec) {
    e.from == f.from && e.to == f.to
  }

  // -------------------------------------------------------------------------
  // Well-formed graphs: what AddNode and AddEdge establish

  ghost predicate NodesOk(nodes: map<Id, NodeSpec>) {
    forall n :: n in nodes ==> nodes[n].id == n && NodeOk(nodes[n])
  }

  ghost predicate EdgesOk(edges: map<Id, EdgeSpec>) {
    forall e :: e in edges ==> edges[e].id == e && EdgeOk(edges[e])
  }

  /** No edge hangs from a node that is not there. */
  ghost predicate NoDangling(g: Graph) {
    forall e :: e in g.edges ==> g.edges[e].from.node in g.nodes && g.edges[e].to.node in g.nodes
  }

  /** Two ports are joined by at most one edge. */
  ghost predicate PairsUnique(edges: map<Id, EdgeSpec>) {
    forall e, f :: e in edges && f in edges && SamePair(edges[e], edges[f]) ==> e == f
  }

  ghost predicate WellFormed(g: Graph) {
    NodesOk(g.nodes) && EdgesOk(g.edges) && NoDangling(g) && PairsUnique(g.edges)
  }

  // -------------------------------------------------------------------------
  // Incidence

  predicate Ends(e: EdgeSpec, n: Id) {
    e.from.node == n || e.to.node == n
  }

  /** The edges that start or end at node n. */
  function Incident(g: Graph, n: Id): set<Id> {
    set e | e in g.edges && Ends(g.edges[e], n)
  }

  /** Every node at an end of one of the edges es. */
  function EndNodes(g: Graph, es: set<Id>): set<Id>
    requires es <= g.edges.Keys
  {
    (set e | e in es :: g.edges[e].from.node) + (set e | e in es :: g.edges[e].to.node)
  }

  // -------------------------------------------------------------------------
  // Primitives

  ghost predicate PairFree(g: Graph, e: EdgeSpec) {
    forall f :: f in g.edges ==> !SamePair(g.edges[f], e)
  }

  ghost predicate CanAddEdge(g: Graph, e: EdgeSpec) {
    && EdgeOk(e)
    && e.id !in g.edges
    && e.from.node in g.nodes && e.to.node in g.nodes
    && PairFree(g, e)
  }

  ghost function AddNode(g: Graph, n: NodeSpec): Option<Graph> {
    if NodeOk(n) && n.id !in g.nodes then Some(g.(nodes := g.nodes[n.id := n])) else None
  }

  ghost function AddEdge(g: Graph, e: EdgeSpec): Option<Graph> {
    if CanAddEdge(g, WithId(e)) then Some(g.(edges := g.edges[WithId(e).id := WithId(e)])) else None
  }

  ghost function RemoveEdges(g: Graph, es: set<Id>): Graph {
    g.(edges := g.edges - es)
  }

  /** Removes the node and every edge touching it. */
  ghost function RemoveNode(g: Graph, n: Id): Graph {
    Graph(g.nodes - {n}, g.edges - Incident(g, n))
  }

  // -------------------------------------------------------------------------
  // Every primitive keeps a graph well formed

  lemma {:induction false} AddNodeWellFormed(g: Graph, n: NodeSpec)
    requires WellFormed(g) && AddNode(g, n).Some?
    ensures WellFormed(AddNode(g, n).value)
  {
  }

  lemma {:induction false} AddEdgeWellFormed(g: Graph, e: EdgeSpec)
    requires WellFormed(g) && AddEdge(g, e).Some?
    ensures WellFormed(AddEdge(g, e).value)
  {
  }

  /** A node is accepted exactly when its id is new and the graph with it is well formed. */
  lemma {:induction false} AddNodeIff(g: Graph, n: NodeSpec)
    requires WellFormed(g)
    ensures AddNode(g, n).Some? <==> n.id !in g.nodes && WellFormed(Graph(g.nodes[n.id := n], g.edges))
  {
    var h := Graph(g.nodes[n.id := n], g.edges);
    if n.id !in g.nodes && WellFormed(h) {
      assert h.nodes[n.id] == n;
    } else if AddNode(g, n).Some? {
      AddNodeWellFormed(g, n);
    }
  }

  /** An edge is accepted exactly when its id, derived or not, is new and the graph with it is well formed. */
  lemma {:induction false} AddEdgeIff(g: Graph, e: EdgeSpec)
    requires WellFormed(g)
    ensures AddEdge(g, e).Some? <==>
            WithId(e).id !in g.edges && WellFormed(Graph(g.nodes, g.edges[WithId(e).id := WithId(e)]))
  {
    var f := WithId(e);
    var h := Graph(g.nodes, g.edges[f.id := f]);
    if f.id !in g.edges && WellFormed(h) {
      assert h.edges[f.id] == f && EdgeOk(h.edges[f.id]);
      forall x | x in g.edges ensures !SamePair(g.edges[x], f) {
        assert h.edges[x] == g.edges[x] && x != f.id;
      }
    } else if AddEdge(g, e).Some? {
      AddEdgeWellFormed(g, e);
    }
  }

  lemma {:induction false} RemoveEdgesWellFormed(g: Graph, es: set<Id>)
    requires WellFormed(g)
    ensures WellFormed(RemoveEdges(g, es))
  {
  }

  lemma {:induction false} RemoveNodeWellFormed(g: Graph, n: Id)
    requires WellFormed(g)
    ensures WellFormed(RemoveNode(g, n))
  {
  }
}
