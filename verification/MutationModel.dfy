/**
 * What a mutation patch means. A candidate is the edited graph together with
 * the change sets MutationApplier keeps; an action is a guard on the graph
 * followed by tracked primitives. Every function here is partial (None) where
 * the applier reports an error. Bulk edits are stated on sets, so nothing
 * depends on the order in which the applier visits edges.
 */
module MutationModel {
  import opened Wrappers
  import opened GraphModel

  datatype PortCapability = PortCapability(name: string, required: bool)
  datatype Capability = Capability(inputs: seq<PortCapability>, outputs: seq<PortCapability>)

  /** Operator lookup; None stands for "no resolver" as well as "unknown operator". */
  type Resolver = OperatorKey -> Option<Capability>

  datatype PortMapping = PortMapping(inputs: map<string, string>, outputs: map<string, string>)

  datatype Action =
    | AddNodeAction(node: NodeSpec)
    | RemoveNodeAction(target: Id, mode: RemoveMode, policy: Option<RemovePolicy>)
    | InsertChainAction(edge: Id, chain: seq<NodeSpec>, chainInput: Option<string>, chainOutput: Option<string>)
    | RemoveChainAction(nodes: seq<Id>, mode: RemoveMode, policy: Option<RemovePolicy>)
    | ReplaceNodeAction(target: Id, op: OperatorKey, options: Json, mapping: Option<PortMapping>,
                        policy: Option<RemovePolicy>)
    | RemoveBranchAction(entryEdge: Id, nodes: seq<Id>, policy: Option<RemovePolicy>, entryEdges: seq<Id>)
    | AddEdgeAction(newEdge: EdgeSpec)
    | RemoveEdgeAction(edge: Id)
    | SetNodeOptionsAction(target: Id, parameters: Json)

  datatype Patch = Patch(baseVersion: Option<nat>, removePolicy: RemovePolicy, actions: seq<Action>)

  datatype Candidate = Candidate(
    graph: Graph,
    addedNodes: set<Id>, removedNodes: set<Id>,
    addedEdges: set<Id>, removedEdges: set<Id>,
    nodePolicy: map<Id, RemovePolicy>,
    parameterUpdates: seq<(Id, Json)>,
    touchedNodes: set<Id>, touchedEdges: set<Id>)

  function Start(base: Graph): Candidate {
    Candidate(base, {}, {}, {}, {}, map[], [], {}, {})
  }

  function PolicyOr(policy: Option<RemovePolicy>, default: RemovePolicy): RemovePolicy {
    if policy.Some? then policy.value else default
  }

  // -------------------------------------------------------------------------
  // Tracked primitives

  ghost function AddNodeTracked(c: Candidate, n: NodeSpec): Option<Candidate> {
    var g :- AddNode(c.graph, n);
    Some(c.(graph := g,
            addedNodes := c.addedNodes + {n.id},
            touchedNodes := c.touchedNodes + {n.id}))
  }

  ghost function AddEdgeTracked(c: Candidate, e: EdgeSpec): Option<Candidate> {
    var g :- AddEdge(c.graph, e);
    var id := WithId(e).id;
    Some(c.(graph := g,
            addedEdges := c.addedEdges + {id},
            touchedNodes := c.touchedNodes + {e.from.node, e.to.node},
            touchedEdges := c.touchedEdges + {id}))
  }

  /** Removes a set of edges; one that this patch added has then never existed. */
  ghost function RemoveEdgesTracked(c: Candidate, es: set<Id>): Candidate
    requires es <= c.graph.edges.Keys
  {
    c.(graph := RemoveEdges(c.graph, es),
       addedEdges := c.addedEdges - es,
       removedEdges := c.removedEdges + (es - c.addedEdges),
       touchedNodes := c.touchedNodes + EndNodes(c.graph, es),
       touchedEdges := c.touchedEdges + es)
  }

  ghost function RemoveEdgeTracked(c: Candidate, e: Id): Option<Candidate> {
    if e in c.graph.edges then Some(RemoveEdgesTracked(c, {e})) else None
  }

  ghost function RemoveNodeTracked(c: Candidate, n: Id, policy: RemovePolicy): Option<Candidate> {
    if n !in c.graph.nodes then None else
    var d := RemoveEdgesTracked(c, Incident(c.graph, n));
    var e := d.(graph := RemoveNode(c.graph, n), touchedNodes := d.touchedNodes + {n});
    if n in c.addedNodes then
      Some(e.(addedNodes := e.addedNodes - {n}))
    else
      Some(e.(removedNodes := e.removedNodes + {n}, nodePolicy := e.nodePolicy[n := policy]))
  }

  ghost function AddNodesTracked(c: Candidate, ns: seq<NodeSpec>): Option<Candidate> {
    if ns == [] then Some(c) else
    var d :- AddNodesTracked(c, ns[..|ns| - 1]);
    AddNodeTracked(d, ns[|ns| - 1])
  }

  ghost function AddEdgesTracked(c: Candidate, es: seq<EdgeSpec>): Option<Candidate> {
    if es == [] then Some(c) else
    var d :- AddEdgesTracked(c, es[..|es| - 1]);
    AddEdgeTracked(d, es[|es| - 1])
  }

  ghost function RemoveNodesTracked(c: Candidate, ids: seq<Id>, policy: RemovePolicy): Option<Candidate> {
    if ids == [] then Some(c) else
    var d :- RemoveNodesTracked(c, ids[..|ids| - 1], policy);
    RemoveNodeTracked(d, ids[|ids| - 1], policy)
  }

  /** All edges of m can be added together, in any order. */
  ghost predicate CanAddEdgeSet(g: Graph, m: map<Id, EdgeSpec>) {
    && (forall e :: e in m ==> m[e].id == e && CanAddEdge(g, m[e]))
    && PairsUnique(m)
  }

  ghost function AddEdgeSetTracked(c: Candidate, m: map<Id, EdgeSpec>): Option<Candidate> {
    if !CanAddEdgeSet(c.graph, m) then None else
    var g := c.graph.(edges := c.graph.edges + m);
    Some(c.(graph := g,
            addedEdges := c.addedEdges + m.Keys,
            touchedNodes := c.touchedNodes + EndNodes(g, m.Keys),
            touchedEdges := c.touchedEdges + m.Keys))
  }

  // -------------------------------------------------------------------------
  // insert_chain

  function RequiredNames(ports: seq<PortCapability>): seq<string> {
    if ports == [] then []
    else (if ports[0].required then [ports[0].name] else []) + RequiredNames(ports[1..])
  }

  function Names(ports: seq<PortCapability>): seq<string> {
    seq(|ports|, i requires 0 <= i < |ports| => ports[i].name)
  }

  /** Inputs prefer the required ports; a port is implied only when it is the single candidate. */
  function UniquePort(cap: Option<Capability>, input: bool): Option<string> {
    if cap.None? then None else
    var ports := if input then cap.value.inputs else cap.value.outputs;
    var candidates :=
      if !input then Names(ports)
      else if RequiredNames(ports) != [] then RequiredNames(ports)
      else Names(ports);
    if |candidates| == 1 then Some(candidates[0]) else None
  }

  datatype Ports = Ports(input: string, output: string)

  function NodePorts(r: Resolver, a: Action, i: nat): Option<Ports>
    requires a.InsertChainAction? && i < |a.chain|
  {
    var cap := r(a.chain[i].op);
    var input :- if i == 0 && a.chainInput.Some? then a.chainInput else UniquePort(cap, true);
    var output :- if i + 1 == |a.chain| && a.chainOutput.Some? then a.chainOutput else UniquePort(cap, false);
    Some(Ports(input, output))
  }

  ghost predicate PortsResolve(r: Resolver, a: Action)
    requires a.InsertChainAction?
  {
    forall i :: 0 <= i < |a.chain| ==> NodePorts(r, a, i).Some?
  }

  ghost function ResolvedPorts(r: Resolver, a: Action): (ps: seq<Ports>)
    requires a.InsertChainAction? && PortsResolve(r, a)
    ensures |ps| == |a.chain|
  {
    seq(|a.chain|, i requires 0 <= i < |a.chain| => NodePorts(r, a, i).value)
  }

  /** The k-th edge of the split: into node k of the chain, or out of its end. */
  function SplitEdge(split: EdgeSpec, chain: seq<NodeSpec>, ps: seq<Ports>, k: nat): EdgeSpec
    requires 0 < |chain| == |ps| && k <= |chain|
  {
    if k == 0 then
      split.(id := "", to := PortRef(chain[0].id, ps[0].input))
    else if k == |chain| then
      split.(id := "", from := PortRef(chain[k - 1].id, ps[k - 1].output))
    else
      EdgeSpec("", PortRef(chain[k - 1].id, ps[k - 1].output), PortRef(chain[k].id, ps[k].input),
               split.queue, None, false)
  }

  function SplitEdges(split: EdgeSpec, chain: seq<NodeSpec>, ps: seq<Ports>): (es: seq<EdgeSpec>)
    requires 0 < |chain| == |ps|
    ensures |es| == |chain| + 1
  {
    seq(|chain| + 1, k requires 0 <= k <= |chain| => SplitEdge(split, chain, ps, k))
  }

  ghost predicate CanInsert(r: Resolver, g: Graph, a: Action)
    requires a.InsertChainAction?
  {
    && a.chain != []
    && a.edge in g.edges
    && (forall i :: 0 <= i < |a.chain| ==> a.chain[i].id !in g.nodes)
    && PortsResolve(r, a)
  }

  ghost function InsertChain(r: Resolver, c: Candidate, a: Action): Option<Candidate>
    requires a.InsertChainAction?
  {
    if !CanInsert(r, c.graph, a) then None else
    var split := c.graph.edges[a.edge];
    var d :- AddNodesTracked(RemoveEdgesTracked(c, {a.edge}), a.chain);
    AddEdgesTracked(d, SplitEdges(split, a.chain, ResolvedPorts(r, a)))
  }

  // -------------------------------------------------------------------------
  // remove_chain

  function Elements<T>(s: seq<T>): set<T> {
    set x | x in s
  }

  function Between(g: Graph, a: Id, b: Id): set<Id> {
    set e | e in g.edges && g.edges[e].from.node == a && g.edges[e].to.node == b
  }

  function Entering(g: Graph, ns: set<Id>): set<Id> {
    set e | e in g.edges && g.edges[e].from.node !in ns && g.edges[e].to.node in ns
  }

  function Leaving(g: Graph, ns: set<Id>): set<Id> {
    set e | e in g.edges && g.edges[e].from.node in ns && g.edges[e].to.node !in ns
  }

  predicate Consecutive(chain: seq<Id>, a: Id, b: Id) {
    exists i :: 0 <= i < |chain| - 1 && chain[i] == a && chain[i + 1] == b
  }

  /** Every edge inside the chain steps from one member to the next. */
  ghost predicate InnerLinear(g: Graph, chain: seq<Id>) {
    forall e :: e in g.edges && g.edges[e].from.node in chain && g.edges[e].to.node in chain
      ==> Consecutive(chain, g.edges[e].from.node, g.edges[e].to.node)
  }

  /**
   * The nodes form a path whose only contact with the rest of the graph is one
   * edge into its first node and one edge out of its last.
   */
  ghost predicate IsLinearChain(g: Graph, chain: seq<Id>, inbound: Id, outbound: Id) {
    && chain != []
    && NoRepeats(chain)
    && (forall i :: 0 <= i < |chain| ==> chain[i] in g.nodes)
    && (forall i :: 0 <= i < |chain| - 1 ==> |Between(g, chain[i], chain[i + 1])| == 1)
    && InnerLinear(g, chain)
    && Entering(g, Elements(chain)) == {inbound}
    && Leaving(g, Elements(chain)) == {outbound}
    && inbound in g.edges && g.edges[inbound].to.node == chain[0]
    && outbound in g.edges && g.edges[outbound].from.node == chain[|chain| - 1]
  }

  function BypassEdge(i: EdgeSpec, o: EdgeSpec): EdgeSpec {
    EdgeSpec("", i.from, o.to, o.queue, o.sync, i.feedback || o.feedback)
  }

  ghost function BypassChain(c: Candidate, chain: seq<Id>, policy: RemovePolicy): Option<Candidate> {
    if !exists i, o :: IsLinearChain(c.graph, chain, i, o) then None else
    var i, o :| IsLinearChain(c.graph, chain, i, o);
    var d :- RemoveNodesTracked(c, chain, policy);
    AddEdgeTracked(d, BypassEdge(c.graph.edges[i], c.graph.edges[o]))
  }

  /** The boundary edges are determined, so the choice in BypassChain is no choice. */
  lemma {:induction false} BypassAt(c: Candidate, chain: seq<Id>, policy: RemovePolicy, i: Id, o: Id)
    requires IsLinearChain(c.graph, chain, i, o)
    ensures BypassChain(c, chain, policy) ==
            match RemoveNodesTracked(c, chain, policy)
            case None => None
            case Some(d) => AddEdgeTracked(d, BypassEdge(c.graph.edges[i], c.graph.edges[o]))
  {
    forall i', o' | IsLinearChain(c.graph, chain, i', o') ensures i == i' && o == o' {
      assert i in {i'} && o in {o'};
    }
  }

  ghost function RemoveChain(c: Candidate, chain: seq<Id>, mode: RemoveMode, policy: RemovePolicy): Option<Candidate> {
    if chain == [] then None
    else if mode.Disconnect? then RemoveNodesTracked(c, chain, policy)
    else BypassChain(c, chain, policy)
  }

  // -------------------------------------------------------------------------
  // replace_node

  predicate HasPort(ports: seq<PortCapability>, port: string) {
    exists i :: 0 <= i < |ports| && ports[i].name == port
  }

  function MapPort(r: Resolver, a: Action, input: bool, port: string): Option<string>
    requires a.ReplaceNodeAction?
  {
    if a.mapping.Some? then
      var m := if input then a.mapping.value.inputs else a.mapping.value.outputs;
      if port in m then Some(m[port]) else None
    else
      match r(a.op)
      case None => Some(port)
      case Some(cap) =>
        if HasPort(if input then cap.inputs else cap.outputs, port) then Some(port) else None
  }

  /** Where an end of an incident edge lands on the replacement. */
  function MapEnd(r: Resolver, a: Action, input: bool, p: PortRef): Option<PortRef>
    requires a.ReplaceNodeAction?
  {
    if p.node != a.target then Some(p) else
    var port :- MapPort(r, a, input, p.port);
    Some(PortRef(p.node, port))
  }

  function Remap(r: Resolver, a: Action, e: EdgeSpec): Option<EdgeSpec>
    requires a.ReplaceNodeAction?
  {
    var to :- MapEnd(r, a, true, e.to);
    var from :- MapEnd(r, a, false, e.from);
    Some(e.(from := from, to := to))
  }

  ghost predicate CanRemap(r: Resolver, g: Graph, a: Action)
    requires a.ReplaceNodeAction?
  {
    forall e :: e in Incident(g, a.target) ==> Remap(r, a, g.edges[e]).Some?
  }

  ghost function Remapped(r: Resolver, g: Graph, a: Action): map<Id, EdgeSpec>
    requires a.ReplaceNodeAction? && CanRemap(r, g, a)
  {
    map e | e in Incident(g, a.target) :: Remap(r, a, g.edges[e]).value
  }

  ghost function ReplaceNode(r: Resolver, c: Candidate, a: Action, policy: RemovePolicy): Option<Candidate>
    requires a.ReplaceNodeAction?
  {
    if a.target !in c.graph.nodes || !CanRemap(r, c.graph, a) then None else
    var replacement := c.graph.nodes[a.target].(op := a.op, options := a.options);
    var d :- RemoveNodeTracked(c, a.target, policy);
    var e :- AddNodeTracked(d, replacement);
    AddEdgeSetTracked(e, Remapped(r, c.graph, a))
  }

  // -------------------------------------------------------------------------
  // remove_branch

  function EntryEdges(a: Action): seq<Id>
    requires a.RemoveBranchAction?
  {
    if a.entryEdges == [] then [a.entryEdge] else a.entryEdges
  }

  predicate Hop(g: Graph, a: Id, b: Id) {
    Between(g, a, b) != {}
  }

  /** A walk along edges that stays inside the selection. */
  ghost predicate IsWalk(g: Graph, sel: set<Id>, walk: seq<Id>) {
    && (forall i :: 0 <= i < |walk| ==> walk[i] in sel)
    && (forall i :: 0 <= i < |walk| - 1 ==> Hop(g, walk[i], walk[i + 1]))
  }

  ghost predicate WalkTo(g: Graph, sel: set<Id>, starts: set<Id>, walk: seq<Id>, n: Id) {
    IsWalk(g, sel, walk) && walk != [] && walk[0] in starts && walk[|walk| - 1] == n
  }

  ghost predicate ReachableWithin(g: Graph, sel: set<Id>, starts: set<Id>, n: Id) {
    exists walk :: WalkTo(g, sel, starts, walk, n)
  }

  /** The nodes the entry edges lead to. */
  function Targets(g: Graph, entries: seq<Id>): set<Id>
    requires forall i :: 0 <= i < |entries| ==> entries[i] in g.edges
  {
    set i | 0 <= i < |entries| :: g.edges[entries[i]].to.node
  }

  ghost predicate EntriesEnter(g: Graph, sel: set<Id>, entries: seq<Id>) {
    forall i :: 0 <= i < |entries| ==>
      && entries[i] in g.edges
      && g.edges[entries[i]].to.node in sel
      && g.edges[entries[i]].from.node !in sel
  }

  /** Only the entry edges cross the boundary of the selection. */
  ghost predicate Exclusive(g: Graph, sel: set<Id>, entries: seq<Id>) {
    forall e :: e in g.edges && (g.edges[e].from.node in sel) != (g.edges[e].to.node in sel) ==> e in entries
  }

  ghost predicate CanRemoveBranch(g: Graph, nodes: seq<Id>, entries: seq<Id>) {
    var sel := Elements(nodes);
    && nodes != []
    && EntriesEnter(g, sel, entries)
    && (forall i :: 0 <= i < |nodes| ==> nodes[i] in g.nodes)
    && (forall i :: 0 <= i < |nodes| ==> ReachableWithin(g, sel, Targets(g, entries), nodes[i]))
    && Exclusive(g, sel, entries)
  }

  ghost function RemoveBranch(c: Candidate, nodes: seq<Id>, entries: seq<Id>, policy: RemovePolicy): Option<Candidate> {
    if CanRemoveBranch(c.graph, nodes, entries) then RemoveNodesTracked(c, nodes, policy) else None
  }

  // -------------------------------------------------------------------------
  // Actions and patches

  ghost function SetNodeOptions(c: Candidate, n: Id, parameters: Json): Option<Candidate> {
    if n !in c.graph.nodes then None
    else Some(c.(parameterUpdates := c.parameterUpdates + [(n, parameters)],
                 touchedNodes := c.touchedNodes + {n}))
  }

  ghost function ApplyOne(r: Resolver, c: Candidate, a: Action, default: RemovePolicy): Option<Candidate> {
    match a
    case AddNodeAction(node) => AddNodeTracked(c, node)
    case RemoveNodeAction(target, mode, policy) =>
      if mode.Bypass? then RemoveChain(c, [target], mode, PolicyOr(policy, default))
      else RemoveNodeTracked(c, target, PolicyOr(policy, default))
    case InsertChainAction(_, _, _, _) => InsertChain(r, c, a)
    case RemoveChainAction(nodes, mode, policy) => RemoveChain(c, nodes, mode, PolicyOr(policy, default))
    case ReplaceNodeAction(_, _, _, _, policy) => ReplaceNode(r, c, a, PolicyOr(policy, default))
    case RemoveBranchAction(_, nodes, policy, _) => RemoveBranch(c, nodes, EntryEdges(a), PolicyOr(policy, default))
    case AddEdgeAction(newEdge) => AddEdgeTracked(c, newEdge)
    case RemoveEdgeAction(edge) => RemoveEdgeTracked(c, edge)
    case SetNodeOptionsAction(target, parameters) => SetNodeOptions(c, target, parameters)
  }

  /** Left to right; the first failing action fails the whole list. */
  ghost function ApplyAll(r: Resolver, c: Candidate, actions: seq<Action>, default: RemovePolicy): Option<Candidate> {
    if actions == [] then Some(c) else
    var d :- ApplyAll(r, c, actions[..|actions| - 1], default);
    ApplyOne(r, d, actions[|actions| - 1], default)
  }

  ghost function Apply(r: Resolver, base: Graph, p: Patch): Option<Candidate> {
    if p.actions == [] then None else ApplyAll(r, Start(base), p.actions, p.removePolicy)
  }
}
