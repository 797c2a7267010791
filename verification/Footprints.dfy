/**
 * The touched sets of a candidate are the footprint of its actions and no more:
 * two patches conflict only over nodes and edges they really edit.
 */
module Footprints {
  import opened Wrappers
  import opened GraphModel
  import opened MutationModel
  import opened ClosedForms
  import ActionEffects

  // -------------------------------------------------------------------------
  // Lists of primitives

  lemma {:induction false} EndsOfUnion(g: Graph, es: set<Id>, fs: set<Id>)
    requires es + fs <= g.edges.Keys
    ensures EndNodes(g, es + fs) == EndNodes(g, es) + EndNodes(g, fs)
  {
  }

  lemma {:induction false} EndsWithin(g: Graph, h: Graph, es: set<Id>)
    requires es <= g.edges.Keys && es <= h.edges.Keys && forall e :: e in es ==> g.edges[e] == h.edges[e]
    ensures EndNodes(g, es) == EndNodes(h, es)
  {
  }

  lemma {:induction false} RemoveNodeTouch(c: Candidate, n: Id, policy: RemovePolicy)
    requires RemoveNodeTracked(c, n, policy).Some?
    ensures var d := RemoveNodeTracked(c, n, policy).value;
            && d.touchedEdges == c.touchedEdges + Incident(c.graph, n)
            && d.touchedNodes == c.touchedNodes + EndNodes(c.graph, Incident(c.graph, n)) + {n}
  {
  }

  /** d is c after removing the nodes sel, as far as the touched sets go. */
  ghost predicate NodesTouched(c: Candidate, sel: set<Id>, d: Candidate) {
    && d.touchedEdges == c.touchedEdges + IncidentTo(c.graph, sel)
    && d.touchedNodes == c.touchedNodes + sel + EndNodes(c.graph, IncidentTo(c.graph, sel))
  }

  lemma {:induction false} NodesTouchedStep(c: Candidate, sel: set<Id>, d: Candidate, n: Id, policy: RemovePolicy)
    requires NodesTouched(c, sel, d) && d.graph == GraphWithout(c.graph, sel) && RemoveNodeTracked(d, n, policy).Some?
    ensures NodesTouched(c, sel + {n}, RemoveNodeTracked(d, n, policy).value)
  {
    RemoveNodeTouch(d, n, policy);
    MoreIncident(c.graph, sel, n);
    assert c.touchedEdges + IncidentTo(c.graph, sel) + Incident(d.graph, n) == c.touchedEdges + IncidentTo(c.graph, sel + {n});
    OneMoreGone(c.touchedNodes, sel, n, EndNodes(c.graph, IncidentTo(c.graph, sel)), EndNodes(d.graph, Incident(d.graph, n)));
  }

  lemma {:induction false} RemoveNodesTouch(c: Candidate, ids: seq<Id>, policy: RemovePolicy)
    requires RemoveNodesTracked(c, ids, policy).Some?
    ensures NodesTouched(c, Elements(ids), RemoveNodesTracked(c, ids, policy).value)
  {
    if ids == [] {
      assert IncidentTo(c.graph, Elements(ids)) == {};
    } else {
      var front, last := ids[..|ids| - 1], ids[|ids| - 1];
      assert front + [last] == ids;
      OneMoreId(front, last, {});
      RemoveNodesTouch(c, front, policy);
      RemoveNodesClosed(c, front, policy);
      NodesTouchedStep(c, Elements(front), RemoveNodesTracked(c, front, policy).value, last, policy);
    }
  }

  lemma {:induction false} MoreIncident(g: Graph, sel: set<Id>, n: Id)
    ensures var h := GraphWithout(g, sel);
            && IncidentTo(g, sel + {n}) == IncidentTo(g, sel) + Incident(h, n)
            && EndNodes(g, IncidentTo(g, sel + {n})) == EndNodes(g, IncidentTo(g, sel)) + EndNodes(h, Incident(h, n))
  {
    var h := GraphWithout(g, sel);
    GraphWithoutStep(g, sel, n);
    EndsOfUnion(g, IncidentTo(g, sel), Incident(h, n));
    EndsWithin(g, h, Incident(h, n));
  }

  lemma {:induction false} OneMoreGone<T>(a: set<T>, b: set<T>, n: T, c: set<T>, d: set<T>)
    ensures a + b + c + d + {n} == a + (b + {n}) + (c + d)
  {
  }

  lemma {:induction false} AddNodesTouch(c: Candidate, xs: seq<NodeSpec>)
    requires AddNodesTracked(c, xs).Some?
    ensures var d := AddNodesTracked(c, xs).value;
            d.touchedEdges == c.touchedEdges && d.touchedNodes == c.touchedNodes + Elements(NodeIds(xs))
  {
    if xs != [] {
      var front, last := xs[..|xs| - 1], xs[|xs| - 1];
      AddNodesTouch(c, front);
      assert NodeIds(xs) == NodeIds(front) + [last.id];
      OneMoreId(NodeIds(front), last.id, {});
    }
  }

  /** d is c after adding the edges ids, as far as the touched sets go. */
  ghost predicate EdgesTouched(c: Candidate, ids: set<Id>, d: Candidate) {
    && ids <= d.graph.edges.Keys
    && d.touchedEdges == c.touchedEdges + ids
    && d.touchedNodes == c.touchedNodes + EndNodes(d.graph, ids)
  }

  lemma {:induction false} AddEdgesTouch(c: Candidate, es: seq<EdgeSpec>)
    requires AddEdgesTracked(c, es).Some?
    ensures EdgesTouched(c, Elements(EdgeIds(es)), AddEdgesTracked(c, es).value)
  {
    if es != [] {
      var front, last := es[..|es| - 1], es[|es| - 1];
      assert EdgeIds(es) == EdgeIds(front) + [WithId(last).id];
      OneMoreId(EdgeIds(front), WithId(last).id, {});
      AddEdgesTouch(c, front);
      AddEdgeTouch(c, Elements(EdgeIds(front)), AddEdgesTracked(c, front).value, last);
    }
  }

  lemma {:induction false} AddEdgeTouch(c: Candidate, ids: set<Id>, b: Candidate, e: EdgeSpec)
    requires EdgesTouched(c, ids, b) && AddEdgeTracked(b, e).Some?
    ensures EdgesTouched(c, ids + {WithId(e).id}, AddEdgeTracked(b, e).value)
  {
    var d, id := AddEdgeTracked(b, e).value, WithId(e).id;
    assert d.graph.edges == b.graph.edges[id := WithId(e)];
    EndsOfUnion(d.graph, ids, {id});
    EndsWithin(b.graph, d.graph, ids);
    assert EndNodes(d.graph, {id}) == {e.from.node, e.to.node};
  }

  // -------------------------------------------------------------------------
  // Actions

  /** The edges an action takes away, those it puts back included. */
  ghost function TakenEdges(g: Graph, a: Action): set<Id> {
    match a
    case InsertChainAction(edge, _, _, _) => {edge}
    case RemoveEdgeAction(edge) => {edge}
    case _ => IncidentTo(g, ActionEffects.Takes(a))
  }

  /** The edges of h that are not just edges of g left alone. */
  function PutEdges(g: Graph, h: Graph, taken: set<Id>): set<Id> {
    set e | e in h.edges && (e in taken || e !in g.edges)
  }

  ghost predicate Footprint(c: Candidate, a: Action, d: Candidate) {
    var taken := TakenEdges(c.graph, a);
    var put := PutEdges(c.graph, d.graph, taken);
    && taken <= c.graph.edges.Keys
    && d.touchedEdges == c.touchedEdges + taken + put
    && d.touchedNodes == c.touchedNodes + EndNodes(c.graph, taken) + EndNodes(d.graph, put)
         + ActionEffects.Takes(a) + (d.graph.nodes.Keys - c.graph.nodes.Keys)
         + if a.SetNodeOptionsAction? then {a.target} else {}
  }

  lemma {:induction false} NothingMore(c: Candidate, ids: seq<Id>, policy: RemovePolicy, a: Action)
    requires RemoveNodesTracked(c, ids, policy).Some? && ActionEffects.Takes(a) == Elements(ids)
    requires TakenEdges(c.graph, a) == IncidentTo(c.graph, Elements(ids)) && !a.SetNodeOptionsAction?
    ensures Footprint(c, a, RemoveNodesTracked(c, ids, policy).value)
  {
    var d := RemoveNodesTracked(c, ids, policy).value;
    RemoveNodesTouch(c, ids, policy);
    RemoveNodesClosed(c, ids, policy);
    assert PutEdges(c.graph, d.graph, TakenEdges(c.graph, a)) == {};
    assert d.graph.nodes.Keys - c.graph.nodes.Keys == {};
  }

  lemma {:induction false} BypassTouches(c: Candidate, chain: seq<Id>, policy: RemovePolicy, a: Action)
    requires RemoveChain(c, chain, Bypass, policy).Some? && ActionEffects.Takes(a) == Elements(chain)
    requires TakenEdges(c.graph, a) == IncidentTo(c.graph, Elements(chain)) && !a.SetNodeOptionsAction?
    ensures Footprint(c, a, RemoveChain(c, chain, Bypass, policy).value)
  {
    var i, o :| IsLinearChain(c.graph, chain, i, o);
    BypassAt(c, chain, policy, i, o);
    var b := RemoveNodesTracked(c, chain, policy).value;
    var e := BypassEdge(c.graph.edges[i], c.graph.edges[o]);
    var d := AddEdgeTracked(b, e).value;
    RemoveNodesTouch(c, chain, policy);
    RemoveNodesClosed(c, chain, policy);
    AddEdgeTouch(b, {}, b, e);
    var taken, id := TakenEdges(c.graph, a), WithId(e).id;
    assert {} + {id} == {id};
    assert d.graph.edges == b.graph.edges[id := WithId(e)];
    assert PutEdges(c.graph, d.graph, taken) == {id};
    assert d.graph.nodes.Keys - c.graph.nodes.Keys == {};
    Together(c.touchedNodes, EndNodes(c.graph, taken), Elements(chain), EndNodes(d.graph, {id}));
  }

  lemma {:induction false} InsertTouches(r: Resolver, c: Candidate, a: Action)
    requires a.InsertChainAction? && InsertChain(r, c, a).Some?
    ensures Footprint(c, a, InsertChain(r, c, a).value)
  {
    var es := SplitEdges(c.graph.edges[a.edge], a.chain, ResolvedPorts(r, a));
    var b := RemoveEdgesTracked(c, {a.edge});
    var b2 := AddNodesTracked(b, a.chain).value;
    var d := AddEdgesTracked(b2, es).value;
    AddNodesTouch(b, a.chain);
    AddNodesClosed(b, a.chain);
    AddEdgesTouch(b2, es);
    AddEdgesClosed(b2, es);
    InsertPuts(c.graph, a, b2, es, d);
    assert d.graph.nodes.Keys - c.graph.nodes.Keys == Elements(NodeIds(a.chain));
  }

  lemma {:induction false} InsertPuts(g: Graph, a: Action, b: Candidate, es: seq<EdgeSpec>, d: Candidate)
    requires a.InsertChainAction? && b.graph.edges == g.edges - {a.edge} && IsWithEdges(b, es, d)
    ensures PutEdges(g, d.graph, {a.edge}) == Elements(EdgeIds(es))
  {
    forall e ensures e in PutEdges(g, d.graph, {a.edge}) <==> e in Elements(EdgeIds(es)) {
      assert e in d.graph.edges.Keys <==> e in b.graph.edges.Keys || e in Elements(EdgeIds(es));
      assert e in b.graph.edges.Keys <==> e in g.edges && e != a.edge;
    }
  }

  /** Node n went and came back, and its edges m with it. */
  ghost predicate IsSwapped(c: Candidate, n: Id, m: map<Id, EdgeSpec>, d: Candidate) {
    && m.Keys <= c.graph.edges.Keys && m.Keys <= d.graph.edges.Keys
    && d.graph.nodes.Keys == c.graph.nodes.Keys
    && d.graph.edges.Keys == c.graph.edges.Keys
    && d.touchedEdges == c.touchedEdges + m.Keys
    && d.touchedNodes == c.touchedNodes + EndNodes(c.graph, m.Keys) + EndNodes(d.graph, m.Keys) + {n}
  }

  lemma {:induction false} ReplaceTouches(r: Resolver, c: Candidate, a: Action, policy: RemovePolicy)
    requires a.ReplaceNodeAction? && ReplaceNode(r, c, a, policy).Some? && WellFormed(c.graph)
    ensures Footprint(c, a, ReplaceNode(r, c, a, policy).value)
  {
    var m := Remapped(r, c.graph, a);
    var x := c.graph.nodes[a.target].(op := a.op, options := a.options);
    assert m.Keys == Incident(c.graph, x.id);
    SwapTouches(c, x, policy, m, a);
  }

  lemma {:induction false} SwapTouches(c: Candidate, x: NodeSpec, policy: RemovePolicy, m: map<Id, EdgeSpec>, a: Action)
    requires RemoveNodeTracked(c, x.id, policy).Some? && m.Keys == Incident(c.graph, x.id)
    requires AddNodeTracked(RemoveNodeTracked(c, x.id, policy).value, x).Some?
    requires AddEdgeSetTracked(AddNodeTracked(RemoveNodeTracked(c, x.id, policy).value, x).value, m).Some?
    requires a.ReplaceNodeAction? && a.target == x.id
    ensures Footprint(c, a, AddEdgeSetTracked(AddNodeTracked(RemoveNodeTracked(c, x.id, policy).value, x).value, m).value)
  {
    var b := AddNodeTracked(RemoveNodeTracked(c, x.id, policy).value, x).value;
    var d := AddEdgeSetTracked(b, m).value;
    TakeOut(c, x, policy);
    PutBack(b, m);
    BackAgain(c, x.id, b, m, d);
    SwappedTouches(c, a, m, d);
  }

  lemma {:induction false} SwappedTouches(c: Candidate, a: Action, m: map<Id, EdgeSpec>, d: Candidate)
    requires a.ReplaceNodeAction? && IsSwapped(c, a.target, m, d) && m.Keys == Incident(c.graph, a.target)
    ensures Footprint(c, a, d)
  {
    assert TakenEdges(c.graph, a) == m.Keys;
    assert PutEdges(c.graph, d.graph, m.Keys) == m.Keys;
    assert d.graph.nodes.Keys - c.graph.nodes.Keys == {};
  }

  lemma {:induction false} BackAgain(c: Candidate, n: Id, b: Candidate, m: map<Id, EdgeSpec>, d: Candidate)
    requires IsOut(c, n, b) && m.Keys == Incident(c.graph, n) && IsBack(b, m, d)
    ensures IsSwapped(c, n, m, d)
  {
    assert c.graph.edges.Keys - m.Keys + m.Keys == c.graph.edges.Keys;
    assert c.touchedEdges + m.Keys + m.Keys == c.touchedEdges + m.Keys;
    Together(c.touchedNodes, EndNodes(c.graph, m.Keys), {n}, EndNodes(d.graph, m.Keys));
  }

  ghost predicate IsOut(c: Candidate, n: Id, b: Candidate) {
    && b.graph.nodes.Keys == c.graph.nodes.Keys
    && b.graph.edges.Keys == c.graph.edges.Keys - Incident(c.graph, n)
    && b.touchedEdges == c.touchedEdges + Incident(c.graph, n)
    && b.touchedNodes == c.touchedNodes + EndNodes(c.graph, Incident(c.graph, n)) + {n}
  }

  ghost predicate IsBack(b: Candidate, m: map<Id, EdgeSpec>, d: Candidate) {
    && d.graph.nodes == b.graph.nodes && d.graph.edges.Keys == b.graph.edges.Keys + m.Keys
    && m.Keys <= d.graph.edges.Keys
    && d.touchedEdges == b.touchedEdges + m.Keys
    && d.touchedNodes == b.touchedNodes + EndNodes(d.graph, m.Keys)
  }

  lemma {:induction false} TakeOut(c: Candidate, x: NodeSpec, policy: RemovePolicy)
    requires RemoveNodeTracked(c, x.id, policy).Some?
    requires AddNodeTracked(RemoveNodeTracked(c, x.id, policy).value, x).Some?
    ensures IsOut(c, x.id, AddNodeTracked(RemoveNodeTracked(c, x.id, policy).value, x).value)
  {
    RemoveNodeTouch(c, x.id, policy);
  }

  lemma {:induction false} PutBack(b: Candidate, m: map<Id, EdgeSpec>)
    requires AddEdgeSetTracked(b, m).Some?
    ensures IsBack(b, m, AddEdgeSetTracked(b, m).value)
  {
  }

  lemma {:induction false} Together<T>(a: set<T>, b: set<T>, c: set<T>, d: set<T>)
    ensures a + b + c + c + d == a + b + d + c
    ensures a + b + c + d == a + (b + d) + c
    ensures a + b + c + (d + c) == a + b + d + c
    ensures a + b + c == a + c + b
  {
  }

  lemma {:induction false} RemoveNodeTouches(r: Resolver, c: Candidate, a: Action, default: RemovePolicy)
    requires a.RemoveNodeAction? && ApplyOne(r, c, a, default).Some?
    ensures Footprint(c, a, ApplyOne(r, c, a, default).value)
  {
    var policy := PolicyOr(a.policy, default);
    assert Elements([a.target]) == {a.target};
    if a.mode.Bypass? {
      BypassTouches(c, [a.target], policy, a);
    } else {
      ActionEffects.OneNode(c, a.target, policy);
      NothingMore(c, [a.target], policy, a);
    }
  }

  lemma {:induction false} RemoveChainTouches(r: Resolver, c: Candidate, a: Action, default: RemovePolicy)
    requires a.RemoveChainAction? && ApplyOne(r, c, a, default).Some?
    ensures Footprint(c, a, ApplyOne(r, c, a, default).value)
  {
    if a.mode.Bypass? {
      BypassTouches(c, a.nodes, PolicyOr(a.policy, default), a);
    } else {
      NothingMore(c, a.nodes, PolicyOr(a.policy, default), a);
    }
  }

  /**
   * An action touches the edges it takes away or puts in, the ends of those,
   * and the nodes it takes, adds or configures, and nothing else.
   */
  lemma {:induction false} TouchedExactly(r: Resolver, c: Candidate, a: Action, default: RemovePolicy)
    requires ApplyOne(r, c, a, default).Some? && WellFormed(c.graph)
    ensures Footprint(c, a, ApplyOne(r, c, a, default).value)
  {
    match a
    case RemoveNodeAction(_, _, _) => RemoveNodeTouches(r, c, a, default);
    case RemoveChainAction(_, _, _) => RemoveChainTouches(r, c, a, default);
    case RemoveBranchAction(_, nodes, policy, _) => NothingMore(c, nodes, PolicyOr(policy, default), a);
    case ReplaceNodeAction(_, _, _, _, policy) => ReplaceTouches(r, c, a, PolicyOr(policy, default));
    case InsertChainAction(_, _, _, _) => InsertTouches(r, c, a);
    case AddNodeAction(node) => AddNodeTouches(c, a);
    case AddEdgeAction(e) => AddEdgeTouches(c, a);
    case RemoveEdgeAction(edge) => RemoveEdgeTouches(c, a);
    case SetNodeOptionsAction(target, parameters) => OptionsTouch(c, a);
  }

  lemma {:induction false} AddNodeTouches(c: Candidate, a: Action)
    requires a.AddNodeAction? && AddNodeTracked(c, a.node).Some?
    ensures Footprint(c, a, AddNodeTracked(c, a.node).value)
  {
    var d := AddNodeTracked(c, a.node).value;
    assert PutEdges(c.graph, d.graph, IncidentTo(c.graph, {})) == {};
    assert d.graph.nodes.Keys - c.graph.nodes.Keys == {a.node.id};
  }

  lemma {:induction false} AddEdgeTouches(c: Candidate, a: Action)
    requires a.AddEdgeAction? && AddEdgeTracked(c, a.newEdge).Some?
    ensures Footprint(c, a, AddEdgeTracked(c, a.newEdge).value)
  {
    var d, id := AddEdgeTracked(c, a.newEdge).value, WithId(a.newEdge).id;
    assert IncidentTo(c.graph, {}) == {};
    assert PutEdges(c.graph, d.graph, {}) == {id};
    assert EndNodes(d.graph, {id}) == {a.newEdge.from.node, a.newEdge.to.node};
    assert d.graph.nodes.Keys - c.graph.nodes.Keys == {};
  }

  lemma {:induction false} RemoveEdgeTouches(c: Candidate, a: Action)
    requires a.RemoveEdgeAction? && RemoveEdgeTracked(c, a.edge).Some?
    ensures Footprint(c, a, RemoveEdgeTracked(c, a.edge).value)
  {
    var d := RemoveEdgeTracked(c, a.edge).value;
    assert PutEdges(c.graph, d.graph, {a.edge}) == {};
    assert d.graph.nodes.Keys - c.graph.nodes.Keys == {};
  }

  lemma {:induction false} OptionsTouch(c: Candidate, a: Action)
    requires a.SetNodeOptionsAction? && SetNodeOptions(c, a.target, a.parameters).Some?
    ensures Footprint(c, a, SetNodeOptions(c, a.target, a.parameters).value)
  {
    var d := SetNodeOptions(c, a.target, a.parameters).value;
    assert IncidentTo(c.graph, {}) == {};
    assert PutEdges(c.graph, d.graph, {}) == {};
    assert d.graph.nodes.Keys - c.graph.nodes.Keys == {};
  }
}
