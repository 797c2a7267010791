/**
 * The change sets of a candidate describe the edit exactly: Exact(base, c) is
 * an invariant of every action, so it holds of whatever a patch produces.
 */
module ChangeSets {
  import opened Wrappers
  import opened GraphModel
  import opened MutationModel

  ghost predicate SameNode(g: Graph, h: Graph, n: Id) {
    (n in g.nodes <==> n in h.nodes) && (n in g.nodes && n in h.nodes ==> g.nodes[n] == h.nodes[n])
  }

  ghost predicate SameEdge(g: Graph, h: Graph, e: Id) {
    (e in g.edges <==> e in h.edges) && (e in g.edges && e in h.edges ==> g.edges[e] == h.edges[e])
  }

  ghost predicate EndsWithin(g: Graph, e: Id, ns: set<Id>) {
    e in g.edges ==> g.edges[e].from.node in ns && g.edges[e].to.node in ns
  }

  /** h differs from g only at nodes ns and edges es, and only at edges running between nodes of ns. */
  ghost predicate Framed(g: Graph, h: Graph, ns: set<Id>, es: set<Id>) {
    && (forall n :: n !in ns ==> SameNode(g, h, n))
    && (forall e :: e !in es ==> SameEdge(g, h, e))
    && (forall e :: SameEdge(g, h, e) || (EndsWithin(g, e, ns) && EndsWithin(h, e, ns)))
  }

  /** The surviving ids and the added ids partition what is there now. */
  ghost predicate Partition(before: set<Id>, now: set<Id>, added: set<Id>, removed: set<Id>) {
    && removed <= before
    && added !! (before - removed)
    && now == (before - removed) + added
  }

  ghost predicate Tracked(base: Graph, c: Candidate) {
    && Partition(base.nodes.Keys, c.graph.nodes.Keys, c.addedNodes, c.removedNodes)
    && Partition(base.edges.Keys, c.graph.edges.Keys, c.addedEdges, c.removedEdges)
    && c.addedNodes + c.removedNodes <= c.touchedNodes
    && c.addedEdges + c.removedEdges <= c.touchedEdges
    && c.nodePolicy.Keys == c.removedNodes
  }

  ghost predicate Exact(base: Graph, c: Candidate) {
    && WellFormed(c.graph)
    && Tracked(base, c)
    && Framed(base, c.graph, c.touchedNodes, c.touchedEdges)
  }


  // -------------------------------------------------------------------------
  // Frames compose

  lemma {:induction false} FramedCompose(g: Graph, h: Graph, k: Graph, ns: set<Id>, es: set<Id>, ns': set<Id>,
        es': set<Id>)
    requires Framed(g, h, ns, es) && Framed(h, k, ns', es')
    ensures Framed(g, k, ns + ns', es + es')
  {
    forall e ensures SameEdge(g, k, e) || (EndsWithin(g, e, ns + ns') && EndsWithin(k, e, ns + ns')) {
      assert SameEdge(g, h, e) || !SameEdge(g, h, e);
      assert SameEdge(h, k, e) || !SameEdge(h, k, e);
    }
  }

  lemma {:induction false} FramedWiden(g: Graph, h: Graph, ns: set<Id>, es: set<Id>, ns': set<Id>, es': set<Id>)
    requires Framed(g, h, ns, es) && ns <= ns' && es <= es'
    ensures Framed(g, h, ns', es')
  {
  }

  // -------------------------------------------------------------------------
  // What one primitive changes

  lemma {:induction false} AddNodeFrame(g: Graph, n: NodeSpec)
    requires AddNode(g, n).Some?
    ensures Framed(g, AddNode(g, n).value, {n.id}, {})
  {
  }

  lemma {:induction false} AddEdgeFrame(g: Graph, e: EdgeSpec)
    requires AddEdge(g, e).Some?
    ensures Framed(g, AddEdge(g, e).value, {e.from.node, e.to.node}, {WithId(e).id})
  {
  }

  lemma {:induction false} RemoveEdgesFrame(g: Graph, es: set<Id>)
    requires es <= g.edges.Keys
    ensures Framed(g, RemoveEdges(g, es), EndNodes(g, es), es)
  {
    forall e | e in es ensures EndsWithin(g, e, EndNodes(g, es)) {
    }
  }

  lemma {:induction false} RemoveNodeFrame(g: Graph, n: Id)
    ensures Framed(g, RemoveNode(g, n), EndNodes(g, Incident(g, n)) + {n}, Incident(g, n))
  {
    RemoveEdgesFrame(g, Incident(g, n));
    var h := RemoveEdges(g, Incident(g, n));
    assert Framed(h, RemoveNode(g, n), {n}, {});
    FramedCompose(g, h, RemoveNode(g, n), EndNodes(g, Incident(g, n)), Incident(g, n), {n}, {});
  }

  lemma {:induction false} AddEdgeSetFrame(g: Graph, m: map<Id, EdgeSpec>)
    requires CanAddEdgeSet(g, m)
    ensures var h := g.(edges := g.edges + m); Framed(g, h, EndNodes(h, m.Keys), m.Keys)
  {
    var h := g.(edges := g.edges + m);
    forall e ensures SameEdge(g, h, e) || (EndsWithin(g, e, EndNodes(h, m.Keys)) && EndsWithin(h, e, EndNodes(h, m.Keys))) {
      if e in m {
        assert CanAddEdge(g, m[e]);
      }
    }
  }

  lemma {:induction false} AddEdgeSetPairs(g: Graph, m: map<Id, EdgeSpec>)
    requires PairsUnique(g.edges) && CanAddEdgeSet(g, m)
    ensures PairsUnique(g.edges + m)
  {
    forall e | e in m ensures PairFree(g, m[e]) {
      assert CanAddEdge(g, m[e]);
    }
  }

  lemma {:induction false} AddEdgeSetWellFormed(g: Graph, m: map<Id, EdgeSpec>)
    requires WellFormed(g) && CanAddEdgeSet(g, m)
    ensures WellFormed(g.(edges := g.edges + m))
  {
    AddEdgeSetPairs(g, m);
    assert EdgesOk(g.edges + m);
    assert NoDangling(g.(edges := g.edges + m));
  }

  lemma {:induction false} PartitionAdd(before: set<Id>, now: set<Id>, added: set<Id>, removed: set<Id>, ids: set<Id>)
    requires Partition(before, now, added, removed) && ids !! now
    ensures Partition(before, now + ids, added + ids, removed)
  {
  }

  lemma {:induction false} PartitionRemove(before: set<Id>, now: set<Id>, added: set<Id>, removed: set<Id>,
        ids: set<Id>)
    requires Partition(before, now, added, removed) && ids <= now
    ensures Partition(before, now - ids, added - ids, removed + (ids - added))
  {
  }

  // -------------------------------------------------------------------------
  // Primitives

  lemma {:induction false} AddNodeTrackedOk(base: Graph, c: Candidate, n: NodeSpec)
    requires Tracked(base, c) && AddNodeTracked(c, n).Some?
    ensures Tracked(base, AddNodeTracked(c, n).value)
  {
    PartitionAdd(base.nodes.Keys, c.graph.nodes.Keys, c.addedNodes, c.removedNodes, {n.id});
    assert AddNodeTracked(c, n).value.graph.nodes.Keys == c.graph.nodes.Keys + {n.id};
  }

  lemma {:induction false} AddNodeExact(base: Graph, c: Candidate, n: NodeSpec)
    requires Exact(base, c) && AddNodeTracked(c, n).Some?
    ensures Exact(base, AddNodeTracked(c, n).value)
  {
    AddNodeWellFormed(c.graph, n);
    AddNodeFrame(c.graph, n);
    FramedCompose(base, c.graph, AddNode(c.graph, n).value, c.touchedNodes, c.touchedEdges, {n.id}, {});
    assert c.touchedEdges + {} == c.touchedEdges;
    AddNodeTrackedOk(base, c, n);
  }

  lemma {:induction false} AddEdgeTrackedOk(base: Graph, c: Candidate, e: EdgeSpec)
    requires Tracked(base, c) && AddEdgeTracked(c, e).Some?
    ensures Tracked(base, AddEdgeTracked(c, e).value)
  {
    var id := WithId(e).id;
    PartitionAdd(base.edges.Keys, c.graph.edges.Keys, c.addedEdges, c.removedEdges, {id});
    assert AddEdgeTracked(c, e).value.graph.edges.Keys == c.graph.edges.Keys + {id};
  }

  lemma {:induction false} AddEdgeExact(base: Graph, c: Candidate, e: EdgeSpec)
    requires Exact(base, c) && AddEdgeTracked(c, e).Some?
    ensures Exact(base, AddEdgeTracked(c, e).value)
  {
    AddEdgeWellFormed(c.graph, e);
    AddEdgeFrame(c.graph, e);
    FramedCompose(base, c.graph, AddEdge(c.graph, e).value, c.touchedNodes, c.touchedEdges,
                  {e.from.node, e.to.node}, {WithId(e).id});
    AddEdgeTrackedOk(base, c, e);
  }

  lemma {:induction false} RemoveEdgesTrackedOk(base: Graph, c: Candidate, es: set<Id>)
    requires Tracked(base, c) && es <= c.graph.edges.Keys
    ensures Tracked(base, RemoveEdgesTracked(c, es))
  {
    PartitionRemove(base.edges.Keys, c.graph.edges.Keys, c.addedEdges, c.removedEdges, es);
    assert RemoveEdgesTracked(c, es).graph.edges.Keys == c.graph.edges.Keys - es;
  }

  lemma {:induction false} RemoveEdgesExact(base: Graph, c: Candidate, es: set<Id>)
    requires Exact(base, c) && es <= c.graph.edges.Keys
    ensures Exact(base, RemoveEdgesTracked(c, es))
  {
    RemoveEdgesWellFormed(c.graph, es);
    RemoveEdgesFrame(c.graph, es);
    FramedCompose(base, c.graph, RemoveEdges(c.graph, es), c.touchedNodes, c.touchedEdges, EndNodes(c.graph, es), es);
    RemoveEdgesTrackedOk(base, c, es);
  }

  lemma {:induction false} RemoveNodeTrackedOk(base: Graph, c: Candidate, n: Id, policy: RemovePolicy)
    requires Tracked(base, c) && n in c.graph.nodes
    ensures Tracked(base, RemoveNodeTracked(c, n, policy).value)
  {
    var es := Incident(c.graph, n);
    RemoveEdgesTrackedOk(base, c, es);
    PartitionRemove(base.nodes.Keys, c.graph.nodes.Keys, c.addedNodes, c.removedNodes, {n});
    var d := RemoveNodeTracked(c, n, policy).value;
    assert d.graph.nodes.Keys == c.graph.nodes.Keys - {n};
    assert d.graph.edges == RemoveEdgesTracked(c, es).graph.edges;
    assert d.removedNodes == c.removedNodes + ({n} - c.addedNodes);
    assert d.addedNodes == c.addedNodes - {n};
  }

  lemma {:induction false} RemoveNodeExact(base: Graph, c: Candidate, n: Id, policy: RemovePolicy)
    requires Exact(base, c) && RemoveNodeTracked(c, n, policy).Some?
    ensures Exact(base, RemoveNodeTracked(c, n, policy).value)
  {
    var d := RemoveNodeTracked(c, n, policy).value;
    var es := Incident(c.graph, n);
    RemoveNodeWellFormed(c.graph, n);
    RemoveNodeFrame(c.graph, n);
    FramedCompose(base, c.graph, d.graph, c.touchedNodes, c.touchedEdges, EndNodes(c.graph, es) + {n}, es);
    assert c.touchedNodes + (EndNodes(c.graph, es) + {n}) == d.touchedNodes;
    RemoveNodeTrackedOk(base, c, n, policy);
  }

  lemma {:induction false} AddEdgeSetTrackedOk(base: Graph, c: Candidate, m: map<Id, EdgeSpec>)
    requires Tracked(base, c) && CanAddEdgeSet(c.graph, m)
    ensures Tracked(base, AddEdgeSetTracked(c, m).value)
  {
    forall e | e in m ensures e !in c.graph.edges {
      assert CanAddEdge(c.graph, m[e]);
    }
    PartitionAdd(base.edges.Keys, c.graph.edges.Keys, c.addedEdges, c.removedEdges, m.Keys);
    assert AddEdgeSetTracked(c, m).value.graph.edges.Keys == c.graph.edges.Keys + m.Keys;
  }

  lemma {:induction false} AddEdgeSetExact(base: Graph, c: Candidate, m: map<Id, EdgeSpec>)
    requires Exact(base, c) && AddEdgeSetTracked(c, m).Some?
    ensures Exact(base, AddEdgeSetTracked(c, m).value)
  {
    var d := AddEdgeSetTracked(c, m).value;
    AddEdgeSetFrame(c.graph, m);
    AddEdgeSetWellFormed(c.graph, m);
    FramedCompose(base, c.graph, d.graph, c.touchedNodes, c.touchedEdges, EndNodes(d.graph, m.Keys), m.Keys);
    AddEdgeSetTrackedOk(base, c, m);
  }

  // -------------------------------------------------------------------------
  // Lists of primitives

  lemma {:induction false} AddNodesExact(base: Graph, c: Candidate, ns: seq<NodeSpec>)
    requires Exact(base, c) && AddNodesTracked(c, ns).Some?
    ensures Exact(base, AddNodesTracked(c, ns).value)
  {
    if ns != [] {
      var front := ns[..|ns| - 1];
      AddNodesExact(base, c, front);
      AddNodeExact(base, AddNodesTracked(c, front).value, ns[|ns| - 1]);
    }
  }

  lemma {:induction false} AddEdgesExact(base: Graph, c: Candidate, es: seq<EdgeSpec>)
    requires Exact(base, c) && AddEdgesTracked(c, es).Some?
    ensures Exact(base, AddEdgesTracked(c, es).value)
  {
    if es != [] {
      var front := es[..|es| - 1];
      AddEdgesExact(base, c, front);
      AddEdgeExact(base, AddEdgesTracked(c, front).value, es[|es| - 1]);
    }
  }

  lemma {:induction false} RemoveNodesExact(base: Graph, c: Candidate, ids: seq<Id>, policy: RemovePolicy)
    requires Exact(base, c) && RemoveNodesTracked(c, ids, policy).Some?
    ensures Exact(base, RemoveNodesTracked(c, ids, policy).value)
  {
    if ids != [] {
      var front := ids[..|ids| - 1];
      RemoveNodesExact(base, c, front, policy);
      RemoveNodeExact(base, RemoveNodesTracked(c, front, policy).value, ids[|ids| - 1], policy);
    }
  }

  // -------------------------------------------------------------------------
  // Actions

  lemma {:induction false} InsertChainExact(r: Resolver, base: Graph, c: Candidate, a: Action)
    requires a.InsertChainAction? && Exact(base, c) && InsertChain(r, c, a).Some?
    ensures Exact(base, InsertChain(r, c, a).value)
  {
    RemoveEdgesExact(base, c, {a.edge});
    var c1 := RemoveEdgesTracked(c, {a.edge});
    AddNodesExact(base, c1, a.chain);
    AddEdgesExact(base, AddNodesTracked(c1, a.chain).value,
                  SplitEdges(c.graph.edges[a.edge], a.chain, ResolvedPorts(r, a)));
  }

  /** The pieces of a bypass, with the boundary edges it was built from. */
  lemma {:induction false} BypassParts(c: Candidate, chain: seq<Id>, policy: RemovePolicy) returns (bypass: EdgeSpec)
    requires BypassChain(c, chain, policy).Some?
    ensures RemoveNodesTracked(c, chain, policy).Some?
    ensures BypassChain(c, chain, policy) == AddEdgeTracked(RemoveNodesTracked(c, chain, policy).value, bypass)
  {
    var i, o :| IsLinearChain(c.graph, chain, i, o)
      && BypassChain(c, chain, policy)
         == AddEdgeTracked(RemoveNodesTracked(c, chain, policy).value, BypassEdge(c.graph.edges[i], c.graph.edges[o]));
    bypass := BypassEdge(c.graph.edges[i], c.graph.edges[o]);
  }

  lemma {:induction false} RemoveChainExact(base: Graph, c: Candidate, chain: seq<Id>, mode: RemoveMode,
        policy: RemovePolicy)
    requires Exact(base, c) && RemoveChain(c, chain, mode, policy).Some?
    ensures Exact(base, RemoveChain(c, chain, mode, policy).value)
  {
    if mode.Bypass? {
      var bypass := BypassParts(c, chain, policy);
      RemoveNodesExact(base, c, chain, policy);
      AddEdgeExact(base, RemoveNodesTracked(c, chain, policy).value, bypass);
    } else {
      RemoveNodesExact(base, c, chain, policy);
    }
  }

  lemma {:induction false} ReplaceNodeExact(r: Resolver, base: Graph, c: Candidate, a: Action, policy: RemovePolicy)
    requires a.ReplaceNodeAction? && Exact(base, c) && ReplaceNode(r, c, a, policy).Some?
    ensures Exact(base, ReplaceNode(r, c, a, policy).value)
  {
    var replacement := c.graph.nodes[a.target].(op := a.op, options := a.options);
    RemoveNodeExact(base, c, a.target, policy);
    var d := RemoveNodeTracked(c, a.target, policy).value;
    AddNodeExact(base, d, replacement);
    AddEdgeSetExact(base, AddNodeTracked(d, replacement).value, Remapped(r, c.graph, a));
  }

  lemma {:induction false} ApplyOneExact(r: Resolver, base: Graph, c: Candidate, a: Action, default: RemovePolicy)
    requires Exact(base, c) && ApplyOne(r, c, a, default).Some?
    ensures Exact(base, ApplyOne(r, c, a, default).value)
  {
    match a
    case AddNodeAction(node) => AddNodeExact(base, c, node);
    case RemoveNodeAction(target, mode, policy) =>
      if mode.Bypass? {
        RemoveChainExact(base, c, [target], mode, PolicyOr(policy, default));
      } else {
        RemoveNodeExact(base, c, target, PolicyOr(policy, default));
      }
    case InsertChainAction(_, _, _, _) => InsertChainExact(r, base, c, a);
    case RemoveChainAction(nodes, mode, policy) => RemoveChainExact(base, c, nodes, mode, PolicyOr(policy, default));
    case ReplaceNodeAction(_, _, _, _, policy) => ReplaceNodeExact(r, base, c, a, PolicyOr(policy, default));
    case RemoveBranchAction(_, nodes, policy, _) => RemoveNodesExact(base, c, nodes, PolicyOr(policy, default));
    case AddEdgeAction(newEdge) => AddEdgeExact(base, c, newEdge);
    case RemoveEdgeAction(edge) => RemoveEdgesExact(base, c, {edge});
    case SetNodeOptionsAction(target, parameters) =>
  }

  lemma {:induction false} ApplyAllExact(r: Resolver, base: Graph, c: Candidate, actions: seq<Action>,
        default: RemovePolicy)
    requires Exact(base, c) && ApplyAll(r, c, actions, default).Some?
    ensures Exact(base, ApplyAll(r, c, actions, default).value)
  {
    if actions != [] {
      var front := actions[..|actions| - 1];
      ApplyAllExact(r, base, c, front, default);
      ApplyOneExact(r, base, ApplyAll(r, c, front, default).value, actions[|actions| - 1], default);
    }
  }

  /** Main result: the change sets of every patch that applies are exact. */
  lemma {:induction false} PatchChangeSetsExact(r: Resolver, base: Graph, p: Patch)
    requires WellFormed(base) && Apply(r, base, p).Some?
    ensures Exact(base, Apply(r, base, p).value)
  {
    assert Exact(base, Start(base));
    ApplyAllExact(r, base, Start(base), p.actions, p.removePolicy);
  }
}
