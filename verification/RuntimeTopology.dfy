/**
 * RuntimeTopology::Build: the runtime objects of a version, some of them taken
 * over from the version before. Objects are named by unique numbers.
 */
module RuntimeTopology {
  import opened Wrappers
  import opened GraphModel
  import opened GraphSpecs
  import opened GraphDiff

  datatype NodeRuntime = NodeRuntime(uid: nat, op: OperatorKey)

  /** A channel remembers the contract it was created with and the two nodes it binds. */
  datatype EdgeChannel = EdgeChannel(
    uid: nat, contract: Contract, from: PortRef, to: PortRef, queue: QueueSpec, producer: nat, consumer: nat)

  /** The ports of an input binding, each with the channel that feeds it. */
  type Table = set<(string, nat)>

  /**
   * bindings are the input bindings by node object; rebinds are the tables that
   * bindings shared with the version before get when this one is published.
   */
  datatype Topology = Topology(
    nodes: map<Id, NodeRuntime>, edges: map<Id, EdgeChannel>, bindings: map<nat, Table>, rebinds: map<nat, Table>,
    nextNode: nat, nextEdge: nat)

  /** ApplyRebinds, which runs when a version is published. */
  function Published(t: Topology): Topology {
    t.(bindings := t.bindings + t.rebinds, rebinds := map[])
  }

  /** The table the edges of a graph ask for at a node. */
  ghost function TableIn(g: Graph, edges: map<Id, EdgeChannel>, n: Id): Table {
    set e | e in g.edges && e in edges && g.edges[e].to.node == n :: (g.edges[e].to.port, edges[e].uid)
  }

  ghost predicate NodesFit(g: Graph, t: Topology) {
    && t.nodes.Keys == g.nodes.Keys
    && (forall n :: n in t.nodes ==> NodeFits(g, t, n))
    && (forall n, m :: n in t.nodes && m in t.nodes && t.nodes[n].uid == t.nodes[m].uid ==> n == m)
  }

  ghost predicate NodeFits(g: Graph, t: Topology, n: Id)
    requires n in t.nodes
  {
    n in g.nodes && t.nodes[n].op == g.nodes[n].op && t.nodes[n].uid < t.nextNode && t.nodes[n].uid in t.bindings
  }

  /** The channel has the ends and queue of its edge, an equivalent contract, and binds the nodes in place. */
  ghost predicate EdgeFits(g: Graph, contracts: Contracts, t: Topology, e: Id)
    requires e in t.edges
  {
    var c := t.edges[e];
    && e in g.edges && e in contracts && c.uid < t.nextEdge
    && c.from == g.edges[e].from && c.to == g.edges[e].to && c.queue == g.edges[e].queue
    && SameDataPlane(c.contract, contracts[e])
    && c.from.node in t.nodes && c.to.node in t.nodes
    && c.producer == t.nodes[c.from.node].uid && c.consumer == t.nodes[c.to.node].uid
  }

  ghost predicate ChannelsApart(edges: map<Id, EdgeChannel>) {
    forall e, f :: e in edges && f in edges && edges[e].uid == edges[f].uid ==> e == f
  }

  ghost predicate EdgesFit(g: Graph, contracts: Contracts, t: Topology) {
    t.edges.Keys == g.edges.Keys && ChannelsApart(t.edges) && forall e :: e in t.edges ==> EdgeFits(g, contracts, t, e)
  }

  /** Every binding reads exactly the channels that end at its node. */
  ghost predicate TablesFit(g: Graph, t: Topology) {
    forall n :: n in t.nodes ==> TableFits(g, t, n)
  }

  ghost predicate TableFits(g: Graph, t: Topology, n: Id)
    requires n in t.nodes
  {
    t.nodes[n].uid in t.bindings && t.bindings[t.nodes[n].uid] == TableIn(g, t.edges, n)
  }

  /** The runtime mirrors its graph. */
  ghost predicate Consistent(g: Graph, contracts: Contracts, t: Topology) {
    NoDangling(g) && NodesFit(g, t) && EdgesFit(g, contracts, t) && TablesFit(g, t)
  }

  datatype Reuse = Reuse(nodes: set<Id>, edges: set<Id>)

  /** The internal errors of Build, as conditions on what it is told to reuse. */
  predicate NodeMissing(base: Topology, reuse: Reuse, n: Id) {
    n in reuse.nodes && (n !in base.nodes || base.nodes[n].uid !in base.bindings)
  }

  predicate EdgeUnusable(base: Topology, contracts: Contracts, reuse: Reuse, e: Id) {
    e in reuse.edges && (e !in base.edges || e !in contracts || !SameDataPlane(base.edges[e].contract, contracts[e]))
  }

  /** The node of the new version: the base's object, or a new one. */
  ghost predicate BuiltNode(base: Topology, reuse: Reuse, n: Id, spec: NodeSpec, rt: NodeRuntime) {
    if n in reuse.nodes then n in base.nodes && rt == base.nodes[n]
    else rt.op == spec.op && rt.uid >= base.nextNode
  }

  ghost predicate BuiltEdge(base: Topology, reuse: Reuse, contracts: Contracts, nodes: map<Id, NodeRuntime>,
                            e: Id, spec: EdgeSpec, rt: EdgeChannel) {
    if e in reuse.edges then e in base.edges && rt == base.edges[e]
    else
      && e in contracts && spec.from.node in nodes && spec.to.node in nodes && rt.uid >= base.nextEdge
      && rt == EdgeChannel(rt.uid, contracts[e], spec.from, spec.to, spec.queue,
                           nodes[spec.from.node].uid, nodes[spec.to.node].uid)
  }

  ghost predicate NodesBuilt(base: Topology, reuse: Reuse, specs: seq<NodeSpec>, nodes: map<Id, NodeRuntime>,
        next: nat) {
    && (forall n :: n in nodes <==> exists i :: 0 <= i < |specs| && specs[i].id == n)
    && (forall i :: 0 <= i < |specs| ==>
          specs[i].id in nodes && BuiltNode(base, reuse, specs[i].id, specs[i], nodes[specs[i].id]))
    && (forall n, m :: n in nodes && m in nodes && n !in reuse.nodes && m !in reuse.nodes ==>
          (nodes[n].uid == nodes[m].uid ==> n == m))
    && (forall n :: n in nodes && n !in reuse.nodes ==> nodes[n].uid < next)
    && base.nextNode <= next
  }

  lemma {:induction false} NodesBuiltMore(base: Topology, reuse: Reuse, specs: seq<NodeSpec>,
        nodes: map<Id, NodeRuntime>, next: nat, spec: NodeSpec, rt: NodeRuntime, next': nat)
    requires NodesBuilt(base, reuse, specs, nodes, next) && BuiltNode(base, reuse, spec.id, spec, rt) && spec.id !in nodes
    requires spec.id !in reuse.nodes ==> rt.uid == next && next' == next + 1
    requires spec.id in reuse.nodes ==> next' == next
    ensures NodesBuilt(base, reuse, specs + [spec], nodes[spec.id := rt], next')
  {
    var more, all := specs + [spec], nodes[spec.id := rt];
    assert more[|specs|] == spec;
    forall n ensures n in all <==> exists i :: 0 <= i < |more| && more[i].id == n {
      if n in nodes {
        var i :| 0 <= i < |specs| && specs[i].id == n;
        assert more[i].id == n;
      }
    }
  }

  /** The node loop: takes over or creates, and stops at the first error. */
  method BuildNodes(specs: seq<NodeSpec>, base: Topology, reuse: Reuse, canCreate: OperatorKey -> bool)
    returns (s: Status, nodes: map<Id, NodeRuntime>, next: nat)
    requires UniqueNodes(specs)
    ensures s.Ok? || s.Internal? || s.NotFound?
    ensures s.Ok? ==> NodesBuilt(base, reuse, specs, nodes, next)
    ensures s.Internal? ==> exists i :: 0 <= i < |specs| && specs[i].id in reuse.nodes && specs[i].id !in base.nodes
    ensures s.NotFound? ==> exists i :: 0 <= i < |specs| && specs[i].id !in reuse.nodes && !canCreate(specs[i].op)
    ensures s.Ok? ==> forall i :: 0 <= i < |specs| && specs[i].id !in reuse.nodes ==> canCreate(specs[i].op)
  {
    nodes, next := map[], base.nextNode;
    for i := 0 to |specs|
      invariant NodesBuilt(base, reuse, specs[..i], nodes, next)
      invariant forall j :: 0 <= j < i && specs[j].id !in reuse.nodes ==> canCreate(specs[j].op)
    {
      var spec := specs[i];
      assert specs[..i + 1] == specs[..i] + [spec];
      assert spec.id !in nodes;
      if spec.id in reuse.nodes {
        if spec.id !in base.nodes {
          return Internal, nodes, next;
        }
        NodesBuiltMore(base, reuse, specs[..i], nodes, next, spec, base.nodes[spec.id], next);
        nodes := nodes[spec.id := base.nodes[spec.id]];
      } else {
        if !canCreate(spec.op) {
          return NotFound, nodes, next;
        }
        NodesBuiltMore(base, reuse, specs[..i], nodes, next, spec, NodeRuntime(next, spec.op), next + 1);
        nodes := nodes[spec.id := NodeRuntime(next, spec.op)];
        next := next + 1;
      }
    }
    assert specs[..|specs|] == specs;
    s := Ok;
  }

  ghost predicate EdgesBuilt(base: Topology, reuse: Reuse, contracts: Contracts, nodes: map<Id, NodeRuntime>,
                             specs: seq<EdgeSpec>, edges: map<Id, EdgeChannel>, next: nat) {
    && (forall e :: e in edges <==> exists i :: 0 <= i < |specs| && specs[i].id == e)
    && (forall i :: 0 <= i < |specs| ==>
          specs[i].id in edges && BuiltEdge(base, reuse, contracts, nodes, specs[i].id, specs[i], edges[specs[i].id]))
    && (forall e, f :: e in edges && f in edges && e !in reuse.edges && f !in reuse.edges ==>
          (edges[e].uid == edges[f].uid ==> e == f))
    && (forall e :: e in edges && e !in reuse.edges ==> edges[e].uid < next)
    && base.nextEdge <= next
  }

  lemma {:induction false} EdgesBuiltMore(base: Topology, reuse: Reuse, contracts: Contracts,
        nodes: map<Id, NodeRuntime>,
                       specs: seq<EdgeSpec>, edges: map<Id, EdgeChannel>, next: nat, spec: EdgeSpec, rt: EdgeChannel, next': nat)
    requires EdgesBuilt(base, reuse, contracts, nodes, specs, edges, next) && spec.id !in edges
    requires BuiltEdge(base, reuse, contracts, nodes, spec.id, spec, rt) && next <= next'
    requires spec.id !in reuse.edges ==> rt.uid == next < next'
    ensures EdgesBuilt(base, reuse, contracts, nodes, specs + [spec], edges[spec.id := rt], next')
  {
    var more, all := specs + [spec], edges[spec.id := rt];
    assert more[|specs|] == spec;
    forall e ensures e in all <==> exists i :: 0 <= i < |more| && more[i].id == e {
      if e in edges {
        var i :| 0 <= i < |specs| && specs[i].id == e;
        assert more[i].id == e;
      }
    }
  }

  /** The edge loop. */
  method BuildEdges(specs: seq<EdgeSpec>, contracts: Contracts, nodes: map<Id, NodeRuntime>, base: Topology,
        reuse: Reuse)
    returns (s: Status, edges: map<Id, EdgeChannel>, next: nat)
    requires UniqueEdges(specs)
    requires forall i :: 0 <= i < |specs| ==>
               specs[i].id in contracts && specs[i].from.node in nodes && specs[i].to.node in nodes
    ensures s.Ok? || s.Internal?
    ensures s.Ok? ==> EdgesBuilt(base, reuse, contracts, nodes, specs, edges, next)
    ensures s.Internal? ==> exists i :: 0 <= i < |specs| && EdgeUnusable(base, contracts, reuse, specs[i].id)
    ensures s.Ok? ==> forall i :: 0 <= i < |specs| ==> !EdgeUnusable(base, contracts, reuse, specs[i].id)
  {
    edges, next := map[], base.nextEdge;
    for i := 0 to |specs|
      invariant EdgesBuilt(base, reuse, contracts, nodes, specs[..i], edges, next)
      invariant forall j :: 0 <= j < i ==> !EdgeUnusable(base, contracts, reuse, specs[j].id)
    {
      var spec := specs[i];
      assert specs[..i + 1] == specs[..i] + [spec];
      assert spec.id !in edges;
      if spec.id in reuse.edges {
        if spec.id !in base.edges || !SameDataPlane(base.edges[spec.id].contract, contracts[spec.id]) {
          return Internal, edges, next;
        }
        EdgesBuiltMore(base, reuse, contracts, nodes, specs[..i], edges, next, spec, base.edges[spec.id], next);
        edges := edges[spec.id := base.edges[spec.id]];
      } else {
        var rt := EdgeChannel(next, contracts[spec.id], spec.from, spec.to, spec.queue,
                              nodes[spec.from.node].uid, nodes[spec.to.node].uid);
        EdgesBuiltMore(base, reuse, contracts, nodes, specs[..i], edges, next, spec, rt, next + 1);
        edges := edges[spec.id := rt];
        next := next + 1;
      }
    }
    assert specs[..|specs|] == specs;
    s := Ok;
  }

  /**
   * The binding of a node: a new one with its table, or the base's, whose table
   * is left alone until publication and then replaced if it is another.
   */
  ghost predicate BoundTo(base: Topology, reused: bool, uid: nat, table: Table, bindings: map<nat, Table>,
                          rebinds: map<nat, Table>) {
    && uid in bindings
    && if reused then
         && uid in base.bindings && bindings[uid] == base.bindings[uid]
         && (uid in rebinds <==> base.bindings[uid] != table) && (uid in rebinds ==> rebinds[uid] == table)
       else bindings[uid] == table && uid !in rebinds
  }

  /** The listed edges into a node, as the table they make. */
  function TableOf(specs: seq<EdgeSpec>, edges: map<Id, EdgeChannel>, n: Id): Table {
    set i | 0 <= i < |specs| && specs[i].to.node == n && specs[i].id in edges :: (specs[i].to.port, edges[specs[i].id].uid)
  }

  predicate Apart(specs: seq<NodeSpec>, nodes: map<Id, NodeRuntime>) {
    forall i, j :: 0 <= i < j < |specs| && specs[i].id in nodes && specs[j].id in nodes ==>
      nodes[specs[i].id].uid != nodes[specs[j].id].uid
  }

  /** The first n nodes are bound; where node objects differ, to their tables. */
  ghost predicate BoundUpTo(base: Topology, reuse: Reuse, specs: seq<NodeSpec>, edgeSpecs: seq<EdgeSpec>,
                            nodes: map<Id, NodeRuntime>, edges: map<Id, EdgeChannel>, n: nat,
                            bindings: map<nat, Table>, rebinds: map<nat, Table>) {
    && n <= |specs| && (forall i :: 0 <= i < |specs| ==> specs[i].id in nodes)
    && (forall i :: 0 <= i < n ==> nodes[specs[i].id].uid in bindings)
    && (forall u :: u in rebinds ==> exists i :: 0 <= i < n && nodes[specs[i].id].uid == u)
    && (Apart(specs, nodes) ==> forall i :: 0 <= i < n ==>
          BoundTo(base, specs[i].id in reuse.nodes, nodes[specs[i].id].uid,
                  TableOf(edgeSpecs, edges, specs[i].id), bindings, rebinds))
  }

  lemma {:induction false} BoundMore(base: Topology, reuse: Reuse, specs: seq<NodeSpec>, edgeSpecs: seq<EdgeSpec>,
                                     nodes: map<Id, NodeRuntime>, edges: map<Id, EdgeChannel>, n: nat,
                                     bindings: map<nat, Table>, rebinds: map<nat, Table>,
                                     bindings': map<nat, Table>, rebinds': map<nat, Table>)
    requires BoundUpTo(base, reuse, specs, edgeSpecs, nodes, edges, n, bindings, rebinds) && n < |specs|
    requires var uid, table := nodes[specs[n].id].uid, TableOf(edgeSpecs, edges, specs[n].id);
             if specs[n].id in reuse.nodes then
               && uid in base.bindings && bindings' == bindings[uid := base.bindings[uid]]
               && rebinds' == if base.bindings[uid] == table then rebinds else rebinds[uid := table]
             else bindings' == bindings[uid := table] && rebinds' == rebinds
    ensures BoundUpTo(base, reuse, specs, edgeSpecs, nodes, edges, n + 1, bindings', rebinds')
  {
    var uid := nodes[specs[n].id].uid;
    forall u | u in rebinds' ensures exists i :: 0 <= i < n + 1 && nodes[specs[i].id].uid == u {
      if u in rebinds {
        var i :| 0 <= i < n && nodes[specs[i].id].uid == u;
        assert nodes[specs[i].id].uid == u;
      } else {
        assert nodes[specs[n].id].uid == u;
      }
    }
    if Apart(specs, nodes) {
      assert uid !in rebinds;
      forall i | 0 <= i < n + 1
        ensures BoundTo(base, specs[i].id in reuse.nodes, nodes[specs[i].id].uid,
                        TableOf(edgeSpecs, edges, specs[i].id), bindings', rebinds')
      {
        assert i < n ==> nodes[specs[i].id].uid != uid;
      }
    }
  }

  /** The binding loop: a reused node brings its binding along. */
  method BindInputs(specs: seq<NodeSpec>, edgeSpecs: seq<EdgeSpec>, nodes: map<Id, NodeRuntime>,
                    edges: map<Id, EdgeChannel>, base: Topology, reuse: Reuse)
    returns (s: Status, bindings: map<nat, Table>, rebinds: map<nat, Table>)
    requires forall i :: 0 <= i < |specs| ==> specs[i].id in nodes
    ensures s.Ok? || s.Internal?
    ensures s.Ok? ==> BoundUpTo(base, reuse, specs, edgeSpecs, nodes, edges, |specs|, bindings, rebinds)
    ensures s.Internal? ==>
              exists i :: 0 <= i < |specs| && specs[i].id in reuse.nodes && nodes[specs[i].id].uid !in base.bindings
    ensures s.Ok? ==>
              forall i :: 0 <= i < |specs| && specs[i].id in reuse.nodes ==> nodes[specs[i].id].uid in base.bindings
  {
    bindings, rebinds := map[], map[];
    for i := 0 to |specs|
      invariant BoundUpTo(base, reuse, specs, edgeSpecs, nodes, edges, i, bindings, rebinds)
      invariant forall j :: 0 <= j < i && specs[j].id in reuse.nodes ==> nodes[specs[j].id].uid in base.bindings
    {
      var uid, table := nodes[specs[i].id].uid, TableOf(edgeSpecs, edges, specs[i].id);
      ghost var before, pending := bindings, rebinds;
      if specs[i].id in reuse.nodes {
        if uid !in base.bindings {
          return Internal, bindings, rebinds;
        }
        bindings := bindings[uid := base.bindings[uid]];
        if base.bindings[uid] != table {
          rebinds := rebinds[uid := table];
        }
      } else {
        bindings := bindings[uid := table];
      }
      BoundMore(base, reuse, specs, edgeSpecs, nodes, edges, i, before, pending, bindings, rebinds);
    }
    s := Ok;
  }

  function NoBase(): Topology {
    Topology(map[], map[], map[], map[], 0, 0)
  }

  /** What a successful build yields, as a relation on graphs. */
  ghost predicate Built(base: Topology, reuse: Reuse, g: Graph, contracts: Contracts, t: Topology) {
    && t.nodes.Keys == g.nodes.Keys && t.edges.Keys == g.edges.Keys
    && base.nextNode <= t.nextNode && base.nextEdge <= t.nextEdge
    && (forall n :: n in t.nodes ==> BuiltNode(base, reuse, n, g.nodes[n], t.nodes[n]) && t.nodes[n].uid in t.bindings)
    && (forall n :: n in t.nodes && n !in reuse.nodes ==> t.nodes[n].uid < t.nextNode)
    && (forall n, m :: n in t.nodes && m in t.nodes && n !in reuse.nodes && m !in reuse.nodes ==>
          (t.nodes[n].uid == t.nodes[m].uid ==> n == m))
    && (forall e :: e in t.edges ==> BuiltEdge(base, reuse, contracts, t.nodes, e, g.edges[e], t.edges[e]))
    && (forall e :: e in t.edges && e !in reuse.edges ==> t.edges[e].uid < t.nextEdge)
    && (forall e, f :: e in t.edges && f in t.edges && e !in reuse.edges && f !in reuse.edges ==>
          (t.edges[e].uid == t.edges[f].uid ==> e == f))
    && (NodesApart(t.nodes) ==> forall n :: n in t.nodes ==> BuiltBinding(base, reuse, g, t, n))
  }

  ghost predicate NodesApart(nodes: map<Id, NodeRuntime>) {
    forall n, m :: n in nodes && m in nodes && nodes[n].uid == nodes[m].uid ==> n == m
  }

  ghost predicate BuiltBinding(base: Topology, reuse: Reuse, g: Graph, t: Topology, n: Id)
    requires n in t.nodes
  {
    BoundTo(base, n in reuse.nodes, t.nodes[n].uid, TableIn(g, t.edges, n), t.bindings, t.rebinds)
  }

  lemma {:induction false} ListedNode(g: GraphSpec, i: nat)
    requires g.Lists() && i < |g.nodes|
    ensures g.nodes[i].id in g.model.nodes && g.model.nodes[g.nodes[i].id] == g.nodes[i]
  {
    assert g.nodes[i] in g.nodes;
  }

  lemma {:induction false} ListedEdge(g: GraphSpec, i: nat)
    requires g.Lists() && i < |g.edges|
    ensures g.edges[i].id in g.model.edges && g.model.edges[g.edges[i].id] == g.edges[i]
  {
    assert g.edges[i] in g.edges;
  }

  lemma {:induction false} ListingOf(g: GraphSpec, n: Id) returns (i: nat)
    requires g.Lists() && n in g.model.nodes
    ensures i < |g.nodes| && g.nodes[i] == g.model.nodes[n] && g.nodes[i].id == n
  {
    assert g.model.nodes[n] in g.nodes;
    i :| 0 <= i < |g.nodes| && g.nodes[i] == g.model.nodes[n];
  }

  lemma {:induction false} ListingOfEdge(g: GraphSpec, e: Id) returns (i: nat)
    requires g.Lists() && e in g.model.edges
    ensures i < |g.edges| && g.edges[i] == g.model.edges[e] && g.edges[i].id == e
  {
    assert g.model.edges[e] in g.edges;
    i :| 0 <= i < |g.edges| && g.edges[i] == g.model.edges[e];
  }

  /** The ends of every listed edge have been built. */
  lemma {:induction false} EndsBuilt(g: GraphSpec, nodes: map<Id, NodeRuntime>, i: nat)
    requires g.Lists() && NoDangling(g.model) && i < |g.edges|
    requires forall k :: 0 <= k < |g.nodes| ==> g.nodes[k].id in nodes
    ensures g.edges[i].from.node in nodes && g.edges[i].to.node in nodes
  {
    ListedEdge(g, i);
    var a := ListingOf(g, g.edges[i].from.node);
    var b := ListingOf(g, g.edges[i].to.node);
  }

  lemma {:induction false} NodesOfGraph(base: Topology, reuse: Reuse, g: GraphSpec, nodes: map<Id, NodeRuntime>,
        next: nat)
    requires g.Lists() && NodesBuilt(base, reuse, g.nodes, nodes, next)
    ensures nodes.Keys == g.model.nodes.Keys
    ensures forall n :: n in nodes ==> BuiltNode(base, reuse, n, g.model.nodes[n], nodes[n])
  {
    forall n ensures n in nodes <==> n in g.model.nodes {
      if n in nodes {
        var i :| 0 <= i < |g.nodes| && g.nodes[i].id == n;
        ListedNode(g, i);
      }
      if n in g.model.nodes {
        var i := ListingOf(g, n);
      }
    }
    forall n | n in nodes ensures BuiltNode(base, reuse, n, g.model.nodes[n], nodes[n]) {
      var i := ListingOf(g, n);
    }
  }

  lemma {:induction false} EdgesOfGraph(base: Topology, reuse: Reuse, contracts: Contracts, g: GraphSpec,
        nodes: map<Id, NodeRuntime>, edges: map<Id, EdgeChannel>, next: nat)
    requires g.Lists() && EdgesBuilt(base, reuse, contracts, nodes, g.edges, edges, next)
    ensures edges.Keys == g.model.edges.Keys
    ensures forall e :: e in edges ==> BuiltEdge(base, reuse, contracts, nodes, e, g.model.edges[e], edges[e])
  {
    forall e ensures e in edges <==> e in g.model.edges {
      if e in edges {
        var i :| 0 <= i < |g.edges| && g.edges[i].id == e;
        ListedEdge(g, i);
      }
      if e in g.model.edges {
        var i := ListingOfEdge(g, e);
      }
    }
    forall e | e in edges ensures BuiltEdge(base, reuse, contracts, nodes, e, g.model.edges[e], edges[e]) {
      var i := ListingOfEdge(g, e);
    }
  }

  lemma {:induction false} SameTable(g: GraphSpec, edges: map<Id, EdgeChannel>, n: Id)
    requires g.Lists()
    ensures TableOf(g.edges, edges, n) == TableIn(g.model, edges, n)
  {
    forall x | x in TableOf(g.edges, edges, n) ensures x in TableIn(g.model, edges, n) {
      var i :| 0 <= i < |g.edges| && g.edges[i].to.node == n && g.edges[i].id in edges
               && x == (g.edges[i].to.port, edges[g.edges[i].id].uid);
      ListedEdge(g, i);
    }
    forall x | x in TableIn(g.model, edges, n) ensures x in TableOf(g.edges, edges, n) {
      var e :| e in g.model.edges && e in edges && g.model.edges[e].to.node == n
               && x == (g.model.edges[e].to.port, edges[e].uid);
      var i := ListingOfEdge(g, e);
    }
  }

  /** Bound in the order listed is bound in the graph. */
  lemma {:induction false} AllBound(base: Topology, reuse: Reuse, g: GraphSpec, t: Topology)
    requires g.Lists() && t.nodes.Keys == g.model.nodes.Keys
    requires BoundUpTo(base, reuse, g.nodes, g.edges, t.nodes, t.edges, |g.nodes|, t.bindings, t.rebinds)
    ensures forall n :: n in t.nodes ==> t.nodes[n].uid in t.bindings
    ensures NodesApart(t.nodes) ==> forall n :: n in t.nodes ==> BuiltBinding(base, reuse, g.model, t, n)
  {
    forall n | n in t.nodes ensures t.nodes[n].uid in t.bindings {
      var i := ListingOf(g, n);
    }
    if NodesApart(t.nodes) {
      ListedApart(g, t.nodes);
      forall n | n in t.nodes ensures BuiltBinding(base, reuse, g.model, t, n) {
        var i := ListingOf(g, n);
        SameTable(g, t.edges, n);
      }
    }
  }

  lemma {:induction false} ListedApart(g: GraphSpec, nodes: map<Id, NodeRuntime>)
    requires g.Lists() && NodesApart(nodes)
    ensures Apart(g.nodes, nodes)
  {
    forall i, j | 0 <= i < j < |g.nodes| && g.nodes[i].id in nodes && g.nodes[j].id in nodes
      ensures nodes[g.nodes[i].id].uid != nodes[g.nodes[j].id].uid
    {
      assert g.nodes[i].id != g.nodes[j].id;
    }
  }

  /** Some node or edge that Build was told to reuse cannot be. */
  ghost predicate CannotReuse(base: Topology, reuse: Reuse, g: Graph, contracts: Contracts) {
    || (exists n :: n in g.nodes && NodeMissing(base, reuse, n))
    || (exists e :: e in g.edges && EdgeUnusable(base, contracts, reuse, e))
  }

  lemma {:induction false} MissingNode(base: Topology, reuse: Reuse, g: GraphSpec, contracts: Contracts, i: nat)
    requires g.Lists() && i < |g.nodes| && NodeMissing(base, reuse, g.nodes[i].id)
    ensures CannotReuse(base, reuse, g.model, contracts)
  {
    ListedNode(g, i);
  }

  lemma {:induction false} UnusableEdge(base: Topology, reuse: Reuse, g: GraphSpec, contracts: Contracts, i: nat)
    requires g.Lists() && i < |g.edges| && EdgeUnusable(base, contracts, reuse, g.edges[i].id)
    ensures CannotReuse(base, reuse, g.model, contracts)
  {
    ListedEdge(g, i);
  }

  /** Every node that is not reused has an operator that can be created. */
  predicate AllCreatable(g: Graph, reuse: Reuse, canCreate: OperatorKey -> bool) {
    forall n :: n in g.nodes && n !in reuse.nodes ==> canCreate(g.nodes[n].op)
  }

  lemma {:induction false} Creatable(g: GraphSpec, reuse: Reuse, canCreate: OperatorKey -> bool)
    requires g.Lists()
    ensures AllCreatable(g.model, reuse, canCreate) <==>
            forall i :: 0 <= i < |g.nodes| && g.nodes[i].id !in reuse.nodes ==> canCreate(g.nodes[i].op)
  {
    forall i | 0 <= i < |g.nodes| ensures g.nodes[i].id in g.model.nodes && g.model.nodes[g.nodes[i].id] == g.nodes[i] {
      ListedNode(g, i);
    }
    forall n | n in g.model.nodes
      ensures exists i :: 0 <= i < |g.nodes| && g.nodes[i] == g.model.nodes[n] && g.nodes[i].id == n
    {
      var i := ListingOf(g, n);
    }
  }

  /** Nothing that was reused was missing. */
  lemma {:induction false} AllReusable(base: Topology, reuse: Reuse, g: GraphSpec, contracts: Contracts,
                                       nodes: map<Id, NodeRuntime>, next: nat)
    requires g.Lists() && NodesBuilt(base, reuse, g.nodes, nodes, next)
    requires forall i :: 0 <= i < |g.edges| ==> !EdgeUnusable(base, contracts, reuse, g.edges[i].id)
    requires forall i :: 0 <= i < |g.nodes| && g.nodes[i].id in reuse.nodes ==> nodes[g.nodes[i].id].uid in base.bindings
    ensures !CannotReuse(base, reuse, g.model, contracts)
  {
    forall n | n in g.model.nodes ensures !NodeMissing(base, reuse, n) {
      var i := ListingOf(g, n);
      assert BuiltNode(base, reuse, g.nodes[i].id, g.nodes[i], nodes[g.nodes[i].id]);
    }
    forall e | e in g.model.edges ensures !EdgeUnusable(base, contracts, reuse, e) {
      var i := ListingOfEdge(g, e);
    }
  }

  /** Every listed edge has a contract and two built ends. */
  lemma {:induction false} EdgesReady(g: GraphSpec, contracts: Contracts, nodes: map<Id, NodeRuntime>)
    requires g.Lists() && NoDangling(g.model) && g.model.edges.Keys <= contracts.Keys
    requires forall k :: 0 <= k < |g.nodes| ==> g.nodes[k].id in nodes
    ensures forall i :: 0 <= i < |g.edges| ==>
              g.edges[i].id in contracts && g.edges[i].from.node in nodes && g.edges[i].to.node in nodes
  {
    forall i | 0 <= i < |g.edges|
      ensures g.edges[i].id in contracts && g.edges[i].from.node in nodes && g.edges[i].to.node in nodes
    {
      ListedEdge(g, i);
      EndsBuilt(g, nodes, i);
      assert g.edges[i].id in contracts.Keys;
    }
  }

  /** The two tables of runtime objects. */
  method BuildObjects(g: GraphSpec, contracts: Contracts, base: Topology, reuse: Reuse, canCreate: OperatorKey -> bool)
    returns (s: Status, nodes: map<Id, NodeRuntime>, nextNode: nat, edges: map<Id, EdgeChannel>, nextEdge: nat)
    requires g.Lists() && NoDangling(g.model) && g.model.edges.Keys <= contracts.Keys
    ensures s.Ok? || s.Internal? || s.NotFound?
    ensures s.Ok? ==> NodesBuilt(base, reuse, g.nodes, nodes, nextNode)
    ensures s.Ok? ==> EdgesBuilt(base, reuse, contracts, nodes, g.edges, edges, nextEdge)
    ensures s.Internal? ==> CannotReuse(base, reuse, g.model, contracts)
    ensures s.NotFound? ==> !AllCreatable(g.model, reuse, canCreate)
    ensures s.Ok? ==> AllCreatable(g.model, reuse, canCreate)
    ensures s.Ok? ==> forall i :: 0 <= i < |g.edges| ==> !EdgeUnusable(base, contracts, reuse, g.edges[i].id)
  {
    edges, nextEdge := map[], base.nextEdge;
    s, nodes, nextNode := BuildNodes(g.nodes, base, reuse, canCreate);
    Creatable(g, reuse, canCreate);
    if s.Internal? {
      ghost var i :| 0 <= i < |g.nodes| && g.nodes[i].id in reuse.nodes && g.nodes[i].id !in base.nodes;
      MissingNode(base, reuse, g, contracts, i);
    }
    if s.Ok? {
      EdgesReady(g, contracts, nodes);
      s, edges, nextEdge := BuildEdges(g.edges, contracts, nodes, base, reuse);
      if s.Internal? {
        ghost var i :| 0 <= i < |g.edges| && EdgeUnusable(base, contracts, reuse, g.edges[i].id);
        UnusableEdge(base, reuse, g, contracts, i);
      }
    }
  }

  /** Nodes, edges and bindings of a version; the first error ends it. */
  method Build(g: GraphSpec, contracts: Contracts, base: Topology, reuse: Reuse, canCreate: OperatorKey -> bool)
    returns (s: Status, t: Topology)
    requires g.Lists() && NoDangling(g.model) && g.model.edges.Keys <= contracts.Keys
    ensures s.Ok? || s.Internal? || s.NotFound?
    ensures s.Ok? ==> Built(base, reuse, g.model, contracts, t)
    ensures s.Internal? ==> CannotReuse(base, reuse, g.model, contracts)
    ensures s.NotFound? ==> !AllCreatable(g.model, reuse, canCreate)
    ensures s.Ok? <==> !CannotReuse(base, reuse, g.model, contracts) && AllCreatable(g.model, reuse, canCreate)
  {
    t := NoBase();
    var nodes, nextNode, edges, nextEdge, bindings, rebinds;
    s, nodes, nextNode, edges, nextEdge := BuildObjects(g, contracts, base, reuse, canCreate);
    if s.Ok? {
      s, bindings, rebinds := BindInputs(g.nodes, g.edges, nodes, edges, base, reuse);
      if s.Ok? {
        t := Topology(nodes, edges, bindings, rebinds, nextNode, nextEdge);
        Assembled(base, reuse, g, contracts, t);
        AllReusable(base, reuse, g, contracts, nodes, nextNode);
      } else {
        ghost var i :| 0 <= i < |g.nodes| && g.nodes[i].id in reuse.nodes && nodes[g.nodes[i].id].uid !in base.bindings;
        MissingNode(base, reuse, g, contracts, i);
      }
    }
  }

  lemma {:induction false} Assembled(base: Topology, reuse: Reuse, g: GraphSpec, contracts: Contracts, t: Topology)
    requires g.Lists() && NodesBuilt(base, reuse, g.nodes, t.nodes, t.nextNode)
    requires EdgesBuilt(base, reuse, contracts, t.nodes, g.edges, t.edges, t.nextEdge)
    requires BoundUpTo(base, reuse, g.nodes, g.edges, t.nodes, t.edges, |g.nodes|, t.bindings, t.rebinds)
    ensures Built(base, reuse, g.model, contracts, t)
  {
    NodesOfGraph(base, reuse, g, t.nodes, t.nextNode);
    EdgesOfGraph(base, reuse, contracts, g, t.nodes, t.edges, t.nextEdge);
    AllBound(base, reuse, g, t);
  }

  // -------------------------------------------------------------------------
  // Reuse decided by GraphDiff

  ghost function Decided(g0: Graph, c0: Contracts, g: Graph, c: Contracts): Reuse {
    Reuse(ReusedNodes(g0, g), ReusedEdges(g0, c0, g, c))
  }

  /** The grounds on which a channel may be carried over. */
  ghost predicate EdgeStays(g0: Graph, c0: Contracts, g: Graph, c: Contracts, reuse: Reuse, e: Id) {
    && e in g0.edges && e in g.edges
    && g0.edges[e].from == g.edges[e].from && g0.edges[e].to == g.edges[e].to && g0.edges[e].queue == g.edges[e].queue
    && (e in c0 && e in c ==> SameDataPlane(c0[e], c[e]))
    && g.edges[e].from.node in reuse.nodes && g.edges[e].to.node in reuse.nodes
  }

  ghost predicate Justified(g0: Graph, c0: Contracts, g: Graph, c: Contracts, reuse: Reuse) {
    && (forall n :: n in reuse.nodes ==> Stays(g0, g, n))
    && (forall e :: e in reuse.edges ==> EdgeStays(g0, c0, g, c, reuse, e))
  }

  lemma {:induction false} DecidedIsJustified(g0: Graph, c0: Contracts, g: Graph, c: Contracts)
    requires NoDangling(g0) && NoDangling(g)
    ensures Justified(g0, c0, g, c, Decided(g0, c0, g, c))
  {
    var reuse := Decided(g0, c0, g, c);
    forall e | e in reuse.edges ensures EdgeStays(g0, c0, g, c, reuse, e) {
      KeptEdgesJoinReusedNodes(g0, c0, g, c, e);
      assert !MustRecreate(g0, c0, g, c, e);
    }
  }

  /** What is justified can be reused: Build has no internal error to report. */
  lemma {:induction false} JustifiedIsUsable(g0: Graph, c0: Contracts, t0: Topology, g: Graph, c: Contracts,
        reuse: Reuse)
    requires Consistent(g0, c0, t0) && g.edges.Keys <= c.Keys && Justified(g0, c0, g, c, reuse)
    ensures !CannotReuse(t0, reuse, g, c)
  {
    forall n | n in g.nodes ensures !NodeMissing(t0, reuse, n) {
      if n in reuse.nodes {
        assert Stays(g0, g, n) && n in t0.nodes.Keys && NodeFits(g0, t0, n);
      }
    }
    forall e | e in g.edges ensures !EdgeUnusable(t0, c, reuse, e) {
      if e in reuse.edges {
        assert EdgeStays(g0, c0, g, c, reuse, e) && e in t0.edges.Keys && EdgeFits(g0, c0, t0, e);
      }
    }
  }

  lemma {:induction false} CarriedNode(g0: Graph, t0: Topology, g: Graph, t: Topology, reuse: Reuse, n: Id)
    requires NodesFit(g0, t0) && n in t.nodes && n in g.nodes && n in reuse.nodes && Stays(g0, g, n)
    requires BuiltNode(t0, reuse, n, g.nodes[n], t.nodes[n]) && t.nodes[n].uid in t.bindings && t0.nextNode <= t.nextNode
    ensures NodeFits(g, t, n) && n in t0.nodes && t.nodes[n] == t0.nodes[n] && t.nodes[n].uid < t0.nextNode
  {
    assert n in t0.nodes.Keys && NodeFits(g0, t0, n);
  }

  lemma {:induction false} BuiltNodesFit(g0: Graph, c0: Contracts, t0: Topology, g: Graph, c: Contracts, t: Topology,
        reuse: Reuse)
    requires NodesFit(g0, t0) && Justified(g0, c0, g, c, reuse) && Built(t0, reuse, g, c, t)
    ensures NodesFit(g, t)
  {
    forall n | n in t.nodes
      ensures NodeFits(g, t, n)
      ensures n in reuse.nodes ==> n in t0.nodes && t.nodes[n] == t0.nodes[n] && t.nodes[n].uid < t0.nextNode
      ensures n !in reuse.nodes ==> t0.nextNode <= t.nodes[n].uid
    {
      assert n in g.nodes && BuiltNode(t0, reuse, n, g.nodes[n], t.nodes[n]);
      if n in reuse.nodes {
        assert Stays(g0, g, n);
        CarriedNode(g0, t0, g, t, reuse, n);
      }
    }
  }

  /** A kept channel still binds the two nodes in place, with an equivalent contract. */
  lemma {:induction false} CarriedEdge(g0: Graph, c0: Contracts, t0: Topology, g: Graph, c: Contracts, t: Topology,
        reuse: Reuse, e: Id)
    requires EdgesFit(g0, c0, t0) && e in t.edges && e in g.edges && e in c && e in reuse.edges
    requires EdgeStays(g0, c0, g, c, reuse, e) && BuiltEdge(t0, reuse, c, t.nodes, e, g.edges[e], t.edges[e])
    requires t0.nextEdge <= t.nextEdge
    requires forall n :: n in {g.edges[e].from.node, g.edges[e].to.node} ==>
               n in t.nodes && n in t0.nodes && t.nodes[n] == t0.nodes[n]
    ensures EdgeFits(g, c, t, e) && e in t0.edges && t.edges[e] == t0.edges[e]
  {
    assert e in t0.edges.Keys && EdgeFits(g0, c0, t0, e);
    assert g.edges[e].from.node in {g.edges[e].from.node, g.edges[e].to.node};
    assert g.edges[e].to.node in {g.edges[e].from.node, g.edges[e].to.node};
  }

  lemma {:induction false} KeptFits(g0: Graph, c0: Contracts, t0: Topology, g: Graph, c: Contracts, t: Topology,
        reuse: Reuse, e: Id)
    requires Consistent(g0, c0, t0) && NoDangling(g) && g.edges.Keys <= c.Keys
    requires Justified(g0, c0, g, c, reuse) && Built(t0, reuse, g, c, t) && e in t.edges && e in reuse.edges
    ensures EdgeFits(g, c, t, e) && e in t0.edges && t.edges[e] == t0.edges[e]
  {
    assert EdgeStays(g0, c0, g, c, reuse, e) && e in c.Keys;
    forall n | n in {g.edges[e].from.node, g.edges[e].to.node}
      ensures n in t.nodes && n in t0.nodes && t.nodes[n] == t0.nodes[n]
    {
      assert Stays(g0, g, n) && n in t.nodes.Keys;
      CarriedNode(g0, t0, g, t, reuse, n);
    }
    CarriedEdge(g0, c0, t0, g, c, t, reuse, e);
  }

  lemma {:induction false} BuiltEdgesFit(g0: Graph, c0: Contracts, t0: Topology, g: Graph, c: Contracts, t: Topology,
        reuse: Reuse)
    requires Consistent(g0, c0, t0) && NoDangling(g) && g.edges.Keys <= c.Keys
    requires Justified(g0, c0, g, c, reuse) && Built(t0, reuse, g, c, t)
    ensures EdgesFit(g, c, t)
  {
    forall e | e in t.edges ensures EdgeFits(g, c, t, e) {
      if e in reuse.edges {
        KeptFits(g0, c0, t0, g, c, t, reuse, e);
      } else {
        assert BuiltEdge(t0, reuse, c, t.nodes, e, g.edges[e], t.edges[e]);
      }
    }
    BuiltChannelsApart(g0, c0, t0, g, c, t, reuse);
  }

  lemma {:induction false} BuiltChannelsApart(g0: Graph, c0: Contracts, t0: Topology, g: Graph, c: Contracts,
                                              t: Topology, reuse: Reuse)
    requires Consistent(g0, c0, t0) && NoDangling(g) && g.edges.Keys <= c.Keys
    requires Justified(g0, c0, g, c, reuse) && Built(t0, reuse, g, c, t)
    ensures ChannelsApart(t.edges)
  {
    forall e | e in t.edges
      ensures e in reuse.edges ==> e in t0.edges && t.edges[e] == t0.edges[e] && t.edges[e].uid < t0.nextEdge
      ensures e !in reuse.edges ==> t0.nextEdge <= t.edges[e].uid
    {
      if e in reuse.edges {
        KeptFits(g0, c0, t0, g, c, t, reuse, e);
        assert EdgeFits(g0, c0, t0, e);
      } else {
        assert BuiltEdge(t0, reuse, c, t.nodes, e, g.edges[e], t.edges[e]);
      }
    }
  }

  /** Once published, every binding has the table of the new graph. */
  lemma {:induction false} BuiltTablesFit(t0: Topology, g: Graph, c: Contracts, t: Topology, reuse: Reuse)
    requires Built(t0, reuse, g, c, t) && NodesFit(g, t)
    ensures TablesFit(g, Published(t))
  {
    assert NodesApart(t.nodes);
    forall n | n in t.nodes ensures TableFits(g, Published(t), n) {
      assert BuiltBinding(t0, reuse, g, t, n);
    }
  }

  lemma {:induction false} PublishedFits(g: Graph, c: Contracts, t: Topology)
    requires NodesFit(g, t) && EdgesFit(g, c, t)
    ensures NodesFit(g, Published(t)) && EdgesFit(g, c, Published(t))
  {
    var p := Published(t);
    forall n | n in p.nodes ensures NodeFits(g, p, n) {
      assert NodeFits(g, t, n);
    }
    forall e | e in p.edges ensures EdgeFits(g, c, p, e) {
      assert EdgeFits(g, c, t, e);
    }
  }

  lemma {:induction false} BuiltConsistent(g0: Graph, c0: Contracts, t0: Topology, g: Graph, c: Contracts, t: Topology)
    requires Consistent(g0, c0, t0) && NoDangling(g) && g.edges.Keys <= c.Keys
    requires Built(t0, Decided(g0, c0, g, c), g, c, t)
    ensures Consistent(g, c, Published(t))
  {
    var reuse := Decided(g0, c0, g, c);
    DecidedIsJustified(g0, c0, g, c);
    BuiltNodesFit(g0, c0, t0, g, c, t, reuse);
    BuiltEdgesFit(g0, c0, t0, g, c, t, reuse);
    BuiltTablesFit(t0, g, c, t, reuse);
    PublishedFits(g, c, t);
  }

  // -------------------------------------------------------------------------
  // Whole runs of versions

  datatype Version = Version(graph: Graph, contracts: Contracts, topology: Topology)

  ghost predicate Admissible(v: Version) {
    NoDangling(v.graph) && v.graph.edges.Keys <= v.contracts.Keys
  }

  ghost function Newest(vs: seq<Version>): Version
    requires vs != []
  {
    vs[|vs| - 1]
  }

  /** Every version is built on the one before, once that is published, reusing what the diff decides. */
  ghost predicate IsHistory(vs: seq<Version>) {
    && vs != [] && Admissible(Newest(vs))
    && if |vs| == 1 then Built(NoBase(), Reuse({}, {}), vs[0].graph, vs[0].contracts, vs[0].topology)
       else IsHistory(vs[..|vs| - 1]) && Succeeds(Newest(vs[..|vs| - 1]), Newest(vs))
  }

  ghost predicate Succeeds(u: Version, v: Version) {
    Built(Published(u.topology), Decided(u.graph, u.contracts, v.graph, v.contracts), v.graph, v.contracts, v.topology)
  }

  lemma {:induction false} FirstConsistent(v: Version)
    requires Admissible(v) && Built(NoBase(), Reuse({}, {}), v.graph, v.contracts, v.topology)
    ensures Consistent(v.graph, v.contracts, Published(v.topology))
  {
    FirstFits(v);
    BuiltTablesFit(NoBase(), v.graph, v.contracts, v.topology, Reuse({}, {}));
    PublishedFits(v.graph, v.contracts, v.topology);
  }

  lemma {:induction false} FirstFits(v: Version)
    requires Admissible(v) && Built(NoBase(), Reuse({}, {}), v.graph, v.contracts, v.topology)
    ensures NodesFit(v.graph, v.topology) && EdgesFit(v.graph, v.contracts, v.topology)
  {
    forall e | e in v.topology.edges ensures EdgeFits(v.graph, v.contracts, v.topology, e) {
      assert BuiltEdge(NoBase(), Reuse({}, {}), v.contracts, v.topology.nodes, e, v.graph.edges[e], v.topology.edges[e]);
    }
  }

  lemma {:induction false} HistoryConsistent(vs: seq<Version>)
    requires IsHistory(vs)
    ensures Consistent(Newest(vs).graph, Newest(vs).contracts, Published(Newest(vs).topology))
  {
    if |vs| == 1 {
      FirstConsistent(vs[0]);
    } else {
      HistoryConsistent(vs[..|vs| - 1]);
      var u, v := Newest(vs[..|vs| - 1]), Newest(vs);
      BuiltConsistent(u.graph, u.contracts, Published(u.topology), v.graph, v.contracts, v.topology);
    }
  }

  /**
   * After any history of versions, building one more on the reuse sets of the
   * diff cannot fail with an internal error, whatever the new graph is.
   */
  lemma {:induction false} InternalErrorsUnreachable(vs: seq<Version>, g: Graph, c: Contracts)
    requires IsHistory(vs) && NoDangling(g) && g.edges.Keys <= c.Keys
    ensures var u := Newest(vs);
            !CannotReuse(Published(u.topology), Decided(u.graph, u.contracts, g, c), g, c)
  {
    HistoryConsistent(vs);
    var u := Newest(vs);
    DecidedIsJustified(u.graph, u.contracts, g, c);
    JustifiedIsUsable(u.graph, u.contracts, Published(u.topology), g, c, Decided(u.graph, u.contracts, g, c));
  }

  /** Over any history a channel that is carried over binds the node objects of the new version. */
  lemma {:induction false} CarriedChannelsBindCurrentNodes(vs: seq<Version>, v: Version, e: Id)
    requires IsHistory(vs) && Admissible(v) && Succeeds(Newest(vs), v) && e in v.topology.edges
    requires e in Decided(Newest(vs).graph, Newest(vs).contracts, v.graph, v.contracts).edges
    ensures EdgeFits(v.graph, v.contracts, v.topology, e)
    ensures e in Newest(vs).topology.edges && v.topology.edges[e] == Newest(vs).topology.edges[e]
  {
    HistoryConsistent(vs);
    var u := Newest(vs);
    DecidedIsJustified(u.graph, u.contracts, v.graph, v.contracts);
    KeptFits(u.graph, u.contracts, Published(u.topology), v.graph, v.contracts, v.topology,
             Decided(u.graph, u.contracts, v.graph, v.contracts), e);
  }

  /** Over any history a published version reads, at every node, exactly the channels of the edges into it. */
  lemma {:induction false} BindingsReadCurrentChannels(vs: seq<Version>, n: Id)
    requires IsHistory(vs) && n in Newest(vs).topology.nodes
    ensures TableFits(Newest(vs).graph, Published(Newest(vs).topology), n)
  {
    HistoryConsistent(vs);
    assert TablesFit(Newest(vs).graph, Published(Newest(vs).topology));
  }
}
