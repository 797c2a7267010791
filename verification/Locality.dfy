/**
 * An action reads and writes only its footprint. If two graphs agree on the
 * nodes ns, the edges es and every edge meeting ns, then an action whose
 * footprint lies in (ns, es) succeeds on one when it succeeds on the other,
 * leaves them agreeing, and changes nothing outside.
 */
module Locality {
  import opened Wrappers
  import opened GraphModel
  import opened MutationModel
  import opened ChangeSets

  ghost predicate Meets(g: Graph, e: Id, ns: set<Id>) {
    e in g.edges && (g.edges[e].from.node in ns || g.edges[e].to.node in ns)
  }

  ghost predicate Agree(g: Graph, h: Graph, ns: set<Id>, es: set<Id>) {
    && (forall n :: n in ns ==> SameNode(g, h, n))
    && (forall e :: e in es || Meets(g, e, ns) || Meets(h, e, ns) ==> SameEdge(g, h, e))
  }

  ghost predicate Within(c: Candidate, ns: set<Id>, es: set<Id>) {
    c.touchedNodes <= ns && c.touchedEdges <= es
  }

  ghost predicate SameNodeTrack(c: Candidate, d: Candidate, n: Id) {
    && (n in c.addedNodes <==> n in d.addedNodes) && (n in c.removedNodes <==> n in d.removedNodes)
    && (n in c.touchedNodes <==> n in d.touchedNodes)
    && (n in c.nodePolicy <==> n in d.nodePolicy) && (n in c.nodePolicy ==> c.nodePolicy[n] == d.nodePolicy[n])
  }

  ghost predicate SameEdgeTrack(c: Candidate, d: Candidate, e: Id) {
    && (e in c.addedEdges <==> e in d.addedEdges) && (e in c.removedEdges <==> e in d.removedEdges)
    && (e in c.touchedEdges <==> e in d.touchedEdges)
  }

  /** The change sets agree on the footprint. */
  ghost predicate SameTracks(c: Candidate, d: Candidate, ns: set<Id>, es: set<Id>) {
    && (forall n :: n in ns ==> SameNodeTrack(c, d, n))
    && (forall e :: e in es ==> SameEdgeTrack(c, d, e))
  }

  /** The change sets are the same outside the footprint. */
  ghost predicate FramedTracks(c: Candidate, d: Candidate, ns: set<Id>, es: set<Id>) {
    && (forall n :: n !in ns ==> SameNodeTrack(c, d, n))
    && (forall e :: e !in es ==> SameEdgeTrack(c, d, e))
  }

  /** The same parameter updates were appended on both sides. */
  ghost predicate SameUpdates(c: Candidate, c': Candidate, d: Candidate, d': Candidate) {
    && c.parameterUpdates <= c'.parameterUpdates && d.parameterUpdates <= d'.parameterUpdates
    && c'.parameterUpdates[|c.parameterUpdates|..] == d'.parameterUpdates[|d.parameterUpdates|..]
  }

  ghost predicate SameChanges(c: Candidate, c': Candidate, d: Candidate, d': Candidate, ns: set<Id>, es: set<Id>) {
    && SameUpdates(c, c', d, d')
    && FramedTracks(d, d', ns, es)
    && (SameTracks(c, d, ns, es) ==> SameTracks(c', d', ns, es))
  }

  /** What an action did to c it also does to d: to the graph and to the change sets. */
  ghost predicate Mirrors(c: Candidate, c': Option<Candidate>, d: Candidate, d': Option<Candidate>,
                          ns: set<Id>, es: set<Id>) {
    c'.Some? ==>
      && d'.Some?
      && Agree(c'.value.graph, d'.value.graph, ns, es)
      && Framed(d.graph, d'.value.graph, ns, es)
      && SameChanges(c, c'.value, d, d'.value, ns, es)
  }

  lemma {:induction false} UpdatesTwice(c: Candidate, c1: Candidate, c2: Candidate,
                                        d: Candidate, d1: Candidate, d2: Candidate)
    requires SameUpdates(c, c1, d, d1) && SameUpdates(c1, c2, d1, d2)
    ensures SameUpdates(c, c2, d, d2)
  {
    var m, m1, m2 := c.parameterUpdates, c1.parameterUpdates, c2.parameterUpdates;
    var u, u1, u2 := d.parameterUpdates, d1.parameterUpdates, d2.parameterUpdates;
    assert m2[|m|..] == m1[|m|..] + m2[|m1|..];
    assert u2[|u|..] == u1[|u|..] + u2[|u1|..];
  }

  lemma {:induction false} ChangesTwice(c: Candidate, c1: Candidate, c2: Candidate,
                                        d: Candidate, d1: Candidate, d2: Candidate, ns: set<Id>, es: set<Id>)
    requires SameChanges(c, c1, d, d1, ns, es) && SameChanges(c1, c2, d1, d2, ns, es)
    ensures SameChanges(c, c2, d, d2, ns, es)
  {
    UpdatesTwice(c, c1, c2, d, d1, d2);
  }

  lemma {:induction false} MirrorsTwice(c: Candidate, c1: Candidate, c2: Candidate,
                                        d: Candidate, d1: Candidate, d2: Candidate, ns: set<Id>, es: set<Id>)
    requires Mirrors(c, Some(c1), d, Some(d1), ns, es) && Mirrors(c1, Some(c2), d1, Some(d2), ns, es)
    ensures Mirrors(c, Some(c2), d, Some(d2), ns, es)
  {
    FramedTwice(d.graph, d1.graph, d2.graph, ns, es);
    ChangesTwice(c, c1, c2, d, d1, d2, ns, es);
  }

  lemma {:induction false} FramedTwice(g: Graph, h: Graph, k: Graph, ns: set<Id>, es: set<Id>)
    requires Framed(g, h, ns, es) && Framed(h, k, ns, es)
    ensures Framed(g, k, ns, es)
  {
    FramedCompose(g, h, k, ns, es, ns, es);
    assert ns + ns == ns && es + es == es;
  }

  /** Edits framed by a disjoint footprint are invisible here. */
  lemma {:induction false} FramedElsewhere(g: Graph, h: Graph, ns: set<Id>, es: set<Id>, ns': set<Id>, es': set<Id>)
    requires Framed(g, h, ns', es') && ns !! ns' && es !! es'
    ensures Agree(g, h, ns, es)
  {
    forall e | e in es || Meets(g, e, ns) || Meets(h, e, ns) ensures SameEdge(g, h, e) {
    }
  }

  // -------------------------------------------------------------------------
  // Footprints only grow

  ghost predicate TouchesMore(c: Candidate, d: Option<Candidate>) {
    d.Some? ==> c.touchedNodes <= d.value.touchedNodes && c.touchedEdges <= d.value.touchedEdges
  }

  lemma {:induction false} AddNodesTouch(c: Candidate, xs: seq<NodeSpec>)
    ensures TouchesMore(c, AddNodesTracked(c, xs))
    ensures AddNodesTracked(c, xs).Some? ==>
              forall i :: 0 <= i < |xs| ==> xs[i].id in AddNodesTracked(c, xs).value.touchedNodes
  {
    if xs != [] {
      AddNodesTouch(c, xs[..|xs| - 1]);
    }
  }

  lemma {:induction false} AddEdgesTouch(c: Candidate, xs: seq<EdgeSpec>)
    ensures TouchesMore(c, AddEdgesTracked(c, xs))
  {
    if xs != [] {
      AddEdgesTouch(c, xs[..|xs| - 1]);
    }
  }

  lemma {:induction false} RemoveNodesTouch(c: Candidate, ids: seq<Id>, policy: RemovePolicy)
    ensures TouchesMore(c, RemoveNodesTracked(c, ids, policy))
    ensures RemoveNodesTracked(c, ids, policy).Some? ==>
              forall i :: 0 <= i < |ids| ==> ids[i] in RemoveNodesTracked(c, ids, policy).value.touchedNodes
  {
    if ids != [] {
      RemoveNodesTouch(c, ids[..|ids| - 1], policy);
    }
  }

  lemma {:induction false} InsertChainTouch(r: Resolver, c: Candidate, a: Action)
    requires a.InsertChainAction?
    ensures TouchesMore(c, InsertChain(r, c, a))
  {
    if InsertChain(r, c, a).Some? {
      var c1 := RemoveEdgesTracked(c, {a.edge});
      AddNodesTouch(c1, a.chain);
      AddEdgesTouch(AddNodesTracked(c1, a.chain).value, SplitEdges(c.graph.edges[a.edge], a.chain, ResolvedPorts(r, a)));
    }
  }

  lemma {:induction false} RemoveChainTouch(c: Candidate, chain: seq<Id>, mode: RemoveMode, policy: RemovePolicy)
    ensures TouchesMore(c, RemoveChain(c, chain, mode, policy))
  {
    RemoveNodesTouch(c, chain, policy);
  }

  lemma {:induction false} ReplaceTouch(r: Resolver, c: Candidate, a: Action, policy: RemovePolicy)
    requires a.ReplaceNodeAction?
    ensures TouchesMore(c, ReplaceNode(r, c, a, policy))
  {
  }

  lemma {:induction false} ApplyOneTouch(r: Resolver, c: Candidate, a: Action, default: RemovePolicy)
    ensures TouchesMore(c, ApplyOne(r, c, a, default))
  {
    match a
    case RemoveNodeAction(target, mode, policy) => RemoveChainTouch(c, [target], mode, PolicyOr(policy, default));
    case InsertChainAction(_, _, _, _) => InsertChainTouch(r, c, a);
    case RemoveChainAction(nodes, mode, policy) => RemoveChainTouch(c, nodes, mode, PolicyOr(policy, default));
    case ReplaceNodeAction(_, _, _, _, policy) => ReplaceTouch(r, c, a, PolicyOr(policy, default));
    case RemoveBranchAction(_, nodes, policy, _) => RemoveNodesTouch(c, nodes, PolicyOr(policy, default));
    case _ =>
  }

  // -------------------------------------------------------------------------
  // Primitives

  lemma {:induction false} AddNodeLocal(c: Candidate, d: Candidate, n: NodeSpec, ns: set<Id>, es: set<Id>)
    requires Agree(c.graph, d.graph, ns, es) && n.id in ns
    ensures Mirrors(c, AddNodeTracked(c, n), d, AddNodeTracked(d, n), ns, es)
  {
    if AddNodeTracked(c, n).Some? {
      assert SameNode(c.graph, d.graph, n.id);
      AgreeWithNode(c.graph, d.graph, n, ns, es);
      AddNodeFrame(d.graph, n);
      FramedWiden(d.graph, AddNode(d.graph, n).value, {n.id}, {}, ns, es);
    }
  }

  lemma {:induction false} CanAddEdgeLocal(g: Graph, h: Graph, e: EdgeSpec, ns: set<Id>, es: set<Id>)
    requires Agree(g, h, ns, es) && e.id in es && e.from.node in ns && e.to.node in ns
    requires CanAddEdge(g, e)
    ensures CanAddEdge(h, e)
  {
    assert SameEdge(g, h, e.id) && SameNode(g, h, e.from.node) && SameNode(g, h, e.to.node);
    forall f | f in h.edges ensures !SamePair(h.edges[f], e) {
      assert SamePair(h.edges[f], e) ==> Meets(h, f, ns) && SameEdge(g, h, f);
    }
  }

  lemma {:induction false} AgreeWithEdge(g: Graph, h: Graph, e: EdgeSpec, ns: set<Id>, es: set<Id>)
    requires Agree(g, h, ns, es)
    ensures Agree(g.(edges := g.edges[e.id := e]), h.(edges := h.edges[e.id := e]), ns, es)
  {
    var g', h' := g.(edges := g.edges[e.id := e]), h.(edges := h.edges[e.id := e]);
    forall x | x in es || Meets(g', x, ns) || Meets(h', x, ns) ensures SameEdge(g', h', x) {
      if x != e.id {
        assert x in es || Meets(g, x, ns) || Meets(h, x, ns);
        assert SameEdge(g, h, x);
      }
    }
    forall n | n in ns ensures SameNode(g', h', n) {
      assert SameNode(g, h, n);
    }
  }

  lemma {:induction false} AgreeWithNode(g: Graph, h: Graph, m: NodeSpec, ns: set<Id>, es: set<Id>)
    requires Agree(g, h, ns, es)
    ensures Agree(g.(nodes := g.nodes[m.id := m]), h.(nodes := h.nodes[m.id := m]), ns, es)
  {
    var g', h' := g.(nodes := g.nodes[m.id := m]), h.(nodes := h.nodes[m.id := m]);
    forall x | x in es || Meets(g', x, ns) || Meets(h', x, ns) ensures SameEdge(g', h', x) {
      assert x in es || Meets(g, x, ns) || Meets(h, x, ns);
      assert SameEdge(g, h, x);
    }
    forall n | n in ns ensures SameNode(g', h', n) {
      assert SameNode(g, h, n);
    }
  }

  lemma {:induction false} AddEdgeLocal(c: Candidate, d: Candidate, e: EdgeSpec, ns: set<Id>, es: set<Id>)
    requires Agree(c.graph, d.graph, ns, es)
    requires WithId(e).id in es && e.from.node in ns && e.to.node in ns
    ensures Mirrors(c, AddEdgeTracked(c, e), d, AddEdgeTracked(d, e), ns, es)
  {
    if AddEdgeTracked(c, e).Some? {
      CanAddEdgeLocal(c.graph, d.graph, WithId(e), ns, es);
      AgreeWithEdge(c.graph, d.graph, WithId(e), ns, es);
      AddEdgeFrame(d.graph, e);
      FramedWiden(d.graph, AddEdge(d.graph, e).value, {e.from.node, e.to.node}, {WithId(e).id}, ns, es);
    }
  }

  lemma {:induction false} RemoveEdgesTracks(c: Candidate, d: Candidate, gone: set<Id>, ns: set<Id>, es: set<Id>)
    requires gone <= c.graph.edges.Keys && gone <= d.graph.edges.Keys && gone <= es
    requires EndNodes(c.graph, gone) == EndNodes(d.graph, gone) && EndNodes(c.graph, gone) <= ns
    ensures SameChanges(c, RemoveEdgesTracked(c, gone), d, RemoveEdgesTracked(d, gone), ns, es)
  {
    var ends, c', d' := EndNodes(c.graph, gone), RemoveEdgesTracked(c, gone), RemoveEdgesTracked(d, gone);
    assert c'.touchedNodes == c.touchedNodes + ends && d'.touchedNodes == d.touchedNodes + ends;
  }

  lemma {:induction false} RemoveNodeTracks(c: Candidate, d: Candidate, n: Id, policy: RemovePolicy,
                                            ns: set<Id>, es: set<Id>)
    requires n in c.graph.nodes && n in d.graph.nodes && n in ns && Incident(c.graph, n) == Incident(d.graph, n) <= es
    requires EndNodes(c.graph, Incident(c.graph, n)) == EndNodes(d.graph, Incident(d.graph, n)) <= ns
    ensures SameChanges(c, RemoveNodeTracked(c, n, policy).value, d, RemoveNodeTracked(d, n, policy).value, ns, es)
  {
    var gone := Incident(c.graph, n);
    var c1, d1 := RemoveEdgesTracked(c, gone), RemoveEdgesTracked(d, gone);
    RemoveEdgesTracks(c, d, gone, ns, es);
    NodeGoneTracks(c1, d1, RemoveNodeTracked(c, n, policy).value, RemoveNodeTracked(d, n, policy).value,
                   n, policy, ns, es);
    ChangesTwice(c, c1, RemoveNodeTracked(c, n, policy).value, d, d1, RemoveNodeTracked(d, n, policy).value, ns, es);
  }

  /** The edges of a node are gone; now the node is recorded as gone. */
  ghost predicate NodeGone(c: Candidate, c': Candidate, n: Id, policy: RemovePolicy) {
    c' == if n in c.addedNodes
          then c.(graph := c'.graph, touchedNodes := c.touchedNodes + {n}, addedNodes := c.addedNodes - {n})
          else c.(graph := c'.graph, touchedNodes := c.touchedNodes + {n}, removedNodes := c.removedNodes + {n},
                  nodePolicy := c.nodePolicy[n := policy])
  }

  lemma {:induction false} NodeGoneTracks(c: Candidate, d: Candidate, c': Candidate, d': Candidate, n: Id,
                                          policy: RemovePolicy, ns: set<Id>, es: set<Id>)
    requires n in ns && NodeGone(c, c', n, policy) && NodeGone(d, d', n, policy)
    ensures SameChanges(c, c', d, d', ns, es)
  {
    if SameTracks(c, d, ns, es) {
      assert SameNodeTrack(c, d, n);
      forall m | m in ns ensures SameNodeTrack(c', d', m) {
        assert SameNodeTrack(c, d, m);
      }
      forall e | e in es ensures SameEdgeTrack(c', d', e) {
        assert SameEdgeTrack(c, d, e);
      }
    }
  }

  lemma {:induction false} AddEdgeSetTracks(c: Candidate, d: Candidate, m: map<Id, EdgeSpec>, ends: set<Id>,
                                            c': Candidate, d': Candidate, ns: set<Id>, es: set<Id>)
    requires ends <= ns && m.Keys <= es
    requires c' == c.(graph := c'.graph, addedEdges := c.addedEdges + m.Keys,
                      touchedNodes := c.touchedNodes + ends, touchedEdges := c.touchedEdges + m.Keys)
    requires d' == d.(graph := d'.graph, addedEdges := d.addedEdges + m.Keys,
                      touchedNodes := d.touchedNodes + ends, touchedEdges := d.touchedEdges + m.Keys)
    ensures SameChanges(c, c', d, d', ns, es)
  {
    if SameTracks(c, d, ns, es) {
      forall n | n in ns ensures SameNodeTrack(c', d', n) {
        assert SameNodeTrack(c, d, n);
      }
      forall e | e in es ensures SameEdgeTrack(c', d', e) {
        assert SameEdgeTrack(c, d, e);
      }
    }
  }

  lemma {:induction false} RemoveEdgesLocal(c: Candidate, d: Candidate, gone: set<Id>, ns: set<Id>, es: set<Id>)
    requires Agree(c.graph, d.graph, ns, es)
    requires gone <= c.graph.edges.Keys && gone <= es && EndNodes(c.graph, gone) <= ns
    ensures gone <= d.graph.edges.Keys
    ensures Mirrors(c, Some(RemoveEdgesTracked(c, gone)), d, Some(RemoveEdgesTracked(d, gone)), ns, es)
  {
    forall e | e in gone ensures e in d.graph.edges && d.graph.edges[e] == c.graph.edges[e] {
      assert SameEdge(c.graph, d.graph, e);
    }
    assert EndNodes(d.graph, gone) == EndNodes(c.graph, gone);
    var c', d' := RemoveEdges(c.graph, gone), RemoveEdges(d.graph, gone);
    forall e | e in es || Meets(c', e, ns) || Meets(d', e, ns) ensures SameEdge(c', d', e) {
      assert e in es || Meets(c.graph, e, ns) || Meets(d.graph, e, ns);
      assert SameEdge(c.graph, d.graph, e);
    }
    RemoveEdgesTracks(c, d, gone, ns, es);
    RemoveEdgesFrame(d.graph, gone);
    FramedWiden(d.graph, RemoveEdges(d.graph, gone), EndNodes(d.graph, gone), gone, ns, es);
  }

  lemma {:induction false} IncidentLocal(g: Graph, h: Graph, n: Id, ns: set<Id>, es: set<Id>)
    requires Agree(g, h, ns, es) && n in ns
    ensures Incident(g, n) == Incident(h, n)
    ensures forall e :: e in Incident(g, n) ==> g.edges[e] == h.edges[e]
    ensures EndNodes(g, Incident(g, n)) == EndNodes(h, Incident(h, n))
  {
    forall e ensures e in Incident(g, n) <==> e in Incident(h, n) {
      if e in Incident(g, n) {
        assert Meets(g, e, ns);
        assert SameEdge(g, h, e);
      }
      if e in Incident(h, n) {
        assert Meets(h, e, ns);
        assert SameEdge(g, h, e);
      }
    }
    forall e | e in Incident(g, n) ensures g.edges[e] == h.edges[e] {
      assert Meets(g, e, ns);
      assert SameEdge(g, h, e);
    }
  }

  lemma {:induction false} RemoveNodeAgree(g: Graph, h: Graph, n: Id, ns: set<Id>, es: set<Id>)
    requires Agree(g, h, ns, es) && n in ns
    ensures Agree(RemoveNode(g, n), RemoveNode(h, n), ns, es)
  {
    IncidentLocal(g, h, n, ns, es);
    var g', h' := RemoveNode(g, n), RemoveNode(h, n);
    forall e | e in es || Meets(g', e, ns) || Meets(h', e, ns) ensures SameEdge(g', h', e) {
      assert e in es || Meets(g, e, ns) || Meets(h, e, ns);
      assert SameEdge(g, h, e);
    }
    forall m | m in ns ensures SameNode(g', h', m) {
      assert SameNode(g, h, m);
    }
  }

  lemma {:induction false} RemoveNodeLocal(c: Candidate, d: Candidate, n: Id, policy: RemovePolicy, ns: set<Id>,
        es: set<Id>)
    requires Agree(c.graph, d.graph, ns, es)
    requires RemoveNodeTracked(c, n, policy).Some? ==> Within(RemoveNodeTracked(c, n, policy).value, ns, es)
    ensures Mirrors(c, RemoveNodeTracked(c, n, policy), d, RemoveNodeTracked(d, n, policy), ns, es)
  {
    if RemoveNodeTracked(c, n, policy).Some? {
      assert n in ns;
      assert SameNode(c.graph, d.graph, n);
      IncidentLocal(c.graph, d.graph, n, ns, es);
      RemoveNodeAgree(c.graph, d.graph, n, ns, es);
      RemoveNodeTracks(c, d, n, policy, ns, es);
      RemoveNodeFrame(d.graph, n);
      FramedWiden(d.graph, RemoveNode(d.graph, n), EndNodes(d.graph, Incident(d.graph, n)) + {n},
                  Incident(d.graph, n), ns, es);
    }
  }

  lemma {:induction false} CanAddEdgeSetLocal(c: Candidate, d: Candidate, m: map<Id, EdgeSpec>, ns: set<Id>,
                                              es: set<Id>)
    requires Agree(c.graph, d.graph, ns, es)
    requires AddEdgeSetTracked(c, m).Some? && Within(AddEdgeSetTracked(c, m).value, ns, es)
    ensures CanAddEdgeSet(d.graph, m)
  {
    var c' := c.graph.(edges := c.graph.edges + m);
    forall e | e in m ensures CanAddEdge(d.graph, m[e]) {
      assert CanAddEdge(c.graph, m[e]);
      assert c'.edges[e] == m[e] && m[e].from.node in EndNodes(c', m.Keys) && m[e].to.node in EndNodes(c', m.Keys);
      CanAddEdgeLocal(c.graph, d.graph, m[e], ns, es);
    }
  }

  lemma {:induction false} AddEdgeSetLocal(c: Candidate, d: Candidate, m: map<Id, EdgeSpec>, ns: set<Id>, es: set<Id>)
    requires Agree(c.graph, d.graph, ns, es)
    requires AddEdgeSetTracked(c, m).Some? ==> Within(AddEdgeSetTracked(c, m).value, ns, es)
    ensures Mirrors(c, AddEdgeSetTracked(c, m), d, AddEdgeSetTracked(d, m), ns, es)
  {
    if AddEdgeSetTracked(c, m).Some? {
      var c' := c.graph.(edges := c.graph.edges + m);
      var d' := d.graph.(edges := d.graph.edges + m);
      CanAddEdgeSetLocal(c, d, m, ns, es);
      assert EndNodes(c', m.Keys) == EndNodes(d', m.Keys) by {
        assert forall e :: e in m ==> c'.edges[e] == d'.edges[e];
      }
      AddEdgeSetFrame(d.graph, m);
      FramedWiden(d.graph, d', EndNodes(d', m.Keys), m.Keys, ns, es);
      AddEdgeSetAgree(c.graph, d.graph, m, ns, es);
      AddEdgeSetTracks(c, d, m, EndNodes(c', m.Keys), AddEdgeSetTracked(c, m).value, AddEdgeSetTracked(d, m).value,
                       ns, es);
    }
  }

  lemma {:induction false} AddEdgeSetAgree(g: Graph, h: Graph, m: map<Id, EdgeSpec>, ns: set<Id>, es: set<Id>)
    requires Agree(g, h, ns, es)
    ensures Agree(g.(edges := g.edges + m), h.(edges := h.edges + m), ns, es)
  {
    var g', h' := g.(edges := g.edges + m), h.(edges := h.edges + m);
    forall e | e in es || Meets(g', e, ns) || Meets(h', e, ns) ensures SameEdge(g', h', e) {
      if e !in m {
        assert e in es || Meets(g, e, ns) || Meets(h, e, ns);
        assert SameEdge(g, h, e);
      }
    }
  }

  // -------------------------------------------------------------------------
  // Lists of primitives

  lemma {:induction false} AddNodesLocal(c: Candidate, d: Candidate, xs: seq<NodeSpec>, ns: set<Id>, es: set<Id>)
    requires Agree(c.graph, d.graph, ns, es)
    requires AddNodesTracked(c, xs).Some? ==> Within(AddNodesTracked(c, xs).value, ns, es)
    ensures Mirrors(c, AddNodesTracked(c, xs), d, AddNodesTracked(d, xs), ns, es)
  {
    if xs != [] && AddNodesTracked(c, xs).Some? {
      var front, last := xs[..|xs| - 1], xs[|xs| - 1];
      var c1 := AddNodesTracked(c, front).value;
      AddNodesLocal(c, d, front, ns, es);
      var d1 := AddNodesTracked(d, front).value;
      AddNodeLocal(c1, d1, last, ns, es);
      MirrorsTwice(c, c1, AddNodesTracked(c, xs).value, d, d1, AddNodesTracked(d, xs).value, ns, es);
    }
  }

  lemma {:induction false} AddEdgesLocal(c: Candidate, d: Candidate, xs: seq<EdgeSpec>, ns: set<Id>, es: set<Id>)
    requires Agree(c.graph, d.graph, ns, es)
    requires AddEdgesTracked(c, xs).Some? ==> Within(AddEdgesTracked(c, xs).value, ns, es)
    ensures Mirrors(c, AddEdgesTracked(c, xs), d, AddEdgesTracked(d, xs), ns, es)
  {
    if xs != [] && AddEdgesTracked(c, xs).Some? {
      var front, last := xs[..|xs| - 1], xs[|xs| - 1];
      var c1 := AddEdgesTracked(c, front).value;
      AddEdgesLocal(c, d, front, ns, es);
      var d1 := AddEdgesTracked(d, front).value;
      AddEdgeLocal(c1, d1, last, ns, es);
      MirrorsTwice(c, c1, AddEdgesTracked(c, xs).value, d, d1, AddEdgesTracked(d, xs).value, ns, es);
    }
  }

  lemma {:induction false} RemoveNodesLocal(c: Candidate, d: Candidate, ids: seq<Id>, policy: RemovePolicy,
                                            ns: set<Id>, es: set<Id>)
    requires Agree(c.graph, d.graph, ns, es)
    requires RemoveNodesTracked(c, ids, policy).Some? ==> Within(RemoveNodesTracked(c, ids, policy).value, ns, es)
    ensures Mirrors(c, RemoveNodesTracked(c, ids, policy), d, RemoveNodesTracked(d, ids, policy), ns, es)
  {
    if ids != [] && RemoveNodesTracked(c, ids, policy).Some? {
      var front, last := ids[..|ids| - 1], ids[|ids| - 1];
      var c1 := RemoveNodesTracked(c, front, policy).value;
      RemoveNodesLocal(c, d, front, policy, ns, es);
      var d1 := RemoveNodesTracked(d, front, policy).value;
      RemoveNodeLocal(c1, d1, last, policy, ns, es);
      MirrorsTwice(c, c1, RemoveNodesTracked(c, ids, policy).value, d, d1, RemoveNodesTracked(d, ids, policy).value, ns, es);
    }
  }

  // -------------------------------------------------------------------------
  // Guards

  lemma {:induction false} BetweenLocal(g: Graph, h: Graph, a: Id, b: Id, ns: set<Id>, es: set<Id>)
    requires Agree(g, h, ns, es) && a in ns
    ensures Between(g, a, b) == Between(h, a, b)
  {
    IncidentLocal(g, h, a, ns, es);
    forall e ensures e in Between(g, a, b) <==> e in Between(h, a, b) {
      if e in Between(g, a, b) {
        assert e in Incident(g, a);
      }
      if e in Between(h, a, b) {
        assert e in Incident(h, a);
      }
    }
  }

  /** Edges that meet a selection inside ns are the same on both sides. */
  lemma {:induction false} MeetsLocal(g: Graph, h: Graph, sel: set<Id>, ns: set<Id>, es: set<Id>)
    requires Agree(g, h, ns, es) && sel <= ns
    ensures forall e :: Meets(g, e, sel) || Meets(h, e, sel) ==> SameEdge(g, h, e)
  {
    forall e | Meets(g, e, sel) || Meets(h, e, sel) ensures SameEdge(g, h, e) {
      assert Meets(g, e, ns) || Meets(h, e, ns);
    }
  }

  lemma {:induction false} BoundaryLocal(g: Graph, h: Graph, sel: set<Id>, ns: set<Id>, es: set<Id>)
    requires Agree(g, h, ns, es) && sel <= ns
    ensures Entering(g, sel) == Entering(h, sel)
    ensures Leaving(g, sel) == Leaving(h, sel)
  {
    MeetsLocal(g, h, sel, ns, es);
    forall e ensures e in Entering(g, sel) <==> e in Entering(h, sel) {
      assert e in Entering(g, sel) ==> Meets(g, e, sel);
      assert e in Entering(h, sel) ==> Meets(h, e, sel);
    }
    forall e ensures e in Leaving(g, sel) <==> e in Leaving(h, sel) {
      assert e in Leaving(g, sel) ==> Meets(g, e, sel);
      assert e in Leaving(h, sel) ==> Meets(h, e, sel);
    }
  }

  lemma {:induction false} LinearChainLocal(g: Graph, h: Graph, chain: seq<Id>, i: Id, o: Id, ns: set<Id>, es: set<Id>)
    requires Agree(g, h, ns, es) && (forall k :: 0 <= k < |chain| ==> chain[k] in ns)
    requires IsLinearChain(g, chain, i, o)
    ensures IsLinearChain(h, chain, i, o) && g.edges[i] == h.edges[i] && g.edges[o] == h.edges[o]
  {
    var sel := Elements(chain);
    MeetsLocal(g, h, sel, ns, es);
    BoundaryLocal(g, h, sel, ns, es);
    assert Meets(g, i, sel) && Meets(g, o, sel);
    assert SameEdge(g, h, i) && SameEdge(g, h, o);
    forall k | 0 <= k < |chain| - 1 ensures |Between(h, chain[k], chain[k + 1])| == 1 {
      BetweenLocal(g, h, chain[k], chain[k + 1], ns, es);
    }
    forall k | 0 <= k < |chain| ensures chain[k] in h.nodes {
      assert SameNode(g, h, chain[k]);
    }
    forall e | e in h.edges && h.edges[e].from.node in chain && h.edges[e].to.node in chain
      ensures Consecutive(chain, h.edges[e].from.node, h.edges[e].to.node)
    {
      assert Meets(h, e, sel);
      assert SameEdge(g, h, e);
    }
  }

  lemma {:induction false} WalkLocal(g: Graph, h: Graph, sel: set<Id>, starts: set<Id>, n: Id, ns: set<Id>, es: set<Id>)
    requires Agree(g, h, ns, es) && sel <= ns
    requires ReachableWithin(g, sel, starts, n)
    ensures ReachableWithin(h, sel, starts, n)
  {
    var walk :| WalkTo(g, sel, starts, walk, n);
    forall i | 0 <= i < |walk| - 1 ensures Hop(h, walk[i], walk[i + 1]) {
      BetweenLocal(g, h, walk[i], walk[i + 1], ns, es);
    }
    assert WalkTo(h, sel, starts, walk, n);
  }

  lemma {:induction false} BranchLocal(g: Graph, h: Graph, nodes: seq<Id>, entries: seq<Id>, ns: set<Id>, es: set<Id>)
    requires Agree(g, h, ns, es) && (forall k :: 0 <= k < |nodes| ==> nodes[k] in ns)
    requires CanRemoveBranch(g, nodes, entries)
    ensures CanRemoveBranch(h, nodes, entries)
  {
    var sel := Elements(nodes);
    MeetsLocal(g, h, sel, ns, es);
    forall i | 0 <= i < |entries| ensures entries[i] in h.edges && h.edges[entries[i]] == g.edges[entries[i]] {
      assert Meets(g, entries[i], sel);
      assert SameEdge(g, h, entries[i]);
    }
    assert Targets(g, entries) == Targets(h, entries);
    forall e | e in h.edges && (h.edges[e].from.node in sel) != (h.edges[e].to.node in sel) ensures e in entries {
      assert Meets(h, e, sel);
      assert SameEdge(g, h, e);
    }
    forall i | 0 <= i < |nodes| ensures nodes[i] in h.nodes && ReachableWithin(h, sel, Targets(h, entries), nodes[i]) {
      assert SameNode(g, h, nodes[i]);
      WalkLocal(g, h, sel, Targets(g, entries), nodes[i], ns, es);
    }
  }

  // -------------------------------------------------------------------------
  // Actions

  lemma {:induction false} InsertChainLocal(r: Resolver, c: Candidate, d: Candidate, a: Action, ns: set<Id>,
        es: set<Id>)
    requires a.InsertChainAction? && Agree(c.graph, d.graph, ns, es)
    requires InsertChain(r, c, a).Some? ==> Within(InsertChain(r, c, a).value, ns, es)
    ensures Mirrors(c, InsertChain(r, c, a), d, InsertChain(r, d, a), ns, es)
  {
    if InsertChain(r, c, a).Some? {
      var edges := SplitEdges(c.graph.edges[a.edge], a.chain, ResolvedPorts(r, a));
      var c1 := RemoveEdgesTracked(c, {a.edge});
      AddNodesTouch(c1, a.chain);
      var c2 := AddNodesTracked(c1, a.chain).value;
      AddEdgesTouch(c2, edges);
      RemoveEdgesLocal(c, d, {a.edge}, ns, es);
      assert SameEdge(c.graph, d.graph, a.edge);
      var d1 := RemoveEdgesTracked(d, {a.edge});
      AddNodesLocal(c1, d1, a.chain, ns, es);
      var d2 := AddNodesTracked(d1, a.chain).value;
      AddEdgesLocal(c2, d2, edges, ns, es);
      forall i | 0 <= i < |a.chain| ensures a.chain[i].id !in d.graph.nodes {
        assert SameNode(c.graph, d.graph, a.chain[i].id);
      }
      assert InsertChain(r, d, a) == AddEdgesTracked(d2, edges);
      var c3, d3 := AddEdgesTracked(c2, edges).value, AddEdgesTracked(d2, edges).value;
      MirrorsTwice(c, c1, c2, d, d1, d2, ns, es);
      MirrorsTwice(c, c2, c3, d, d2, d3, ns, es);
    }
  }

  lemma {:induction false} RemoveChainLocal(c: Candidate, d: Candidate, chain: seq<Id>, mode: RemoveMode,
        policy: RemovePolicy,
                         ns: set<Id>, es: set<Id>)
    requires Agree(c.graph, d.graph, ns, es)
    requires RemoveChain(c, chain, mode, policy).Some? ==> Within(RemoveChain(c, chain, mode, policy).value, ns, es)
    ensures Mirrors(c, RemoveChain(c, chain, mode, policy), d, RemoveChain(d, chain, mode, policy), ns, es)
  {
    if RemoveChain(c, chain, mode, policy).Some? {
      if mode.Disconnect? {
        RemoveNodesLocal(c, d, chain, policy, ns, es);
      } else {
        var i, o :| IsLinearChain(c.graph, chain, i, o);
        var bypass := BypassEdge(c.graph.edges[i], c.graph.edges[o]);
        BypassAt(c, chain, policy, i, o);
        RemoveNodesTouch(c, chain, policy);
        var c1 := RemoveNodesTracked(c, chain, policy).value;
        RemoveNodesLocal(c, d, chain, policy, ns, es);
        var d1 := RemoveNodesTracked(d, chain, policy).value;
        LinearChainLocal(c.graph, d.graph, chain, i, o, ns, es);
        BypassAt(d, chain, policy, i, o);
        AddEdgeLocal(c1, d1, bypass, ns, es);
        MirrorsTwice(c, c1, AddEdgeTracked(c1, bypass).value, d, d1, AddEdgeTracked(d1, bypass).value, ns, es);
      }
    }
  }

  lemma {:induction false} RemappedLocal(r: Resolver, g: Graph, h: Graph, a: Action, ns: set<Id>, es: set<Id>)
    requires a.ReplaceNodeAction? && Agree(g, h, ns, es) && a.target in ns && CanRemap(r, g, a)
    ensures CanRemap(r, h, a) && Remapped(r, h, a) == Remapped(r, g, a)
  {
    IncidentLocal(g, h, a.target, ns, es);
  }

  lemma {:induction false} ReplaceNodeLocal(r: Resolver, c: Candidate, d: Candidate, a: Action, policy: RemovePolicy,
                         ns: set<Id>, es: set<Id>)
    requires a.ReplaceNodeAction? && Agree(c.graph, d.graph, ns, es)
    requires ReplaceNode(r, c, a, policy).Some? ==> Within(ReplaceNode(r, c, a, policy).value, ns, es)
    ensures Mirrors(c, ReplaceNode(r, c, a, policy), d, ReplaceNode(r, d, a, policy), ns, es)
  {
    if ReplaceNode(r, c, a, policy).Some? {
      var replacement := c.graph.nodes[a.target].(op := a.op, options := a.options);
      var edges := Remapped(r, c.graph, a);
      var c1 := RemoveNodeTracked(c, a.target, policy).value;
      var c2 := AddNodeTracked(c1, replacement).value;
      RemoveNodeLocal(c, d, a.target, policy, ns, es);
      var d1 := RemoveNodeTracked(d, a.target, policy).value;
      AddNodeLocal(c1, d1, replacement, ns, es);
      var d2 := AddNodeTracked(d1, replacement).value;
      AddEdgeSetLocal(c2, d2, edges, ns, es);
      assert SameNode(c.graph, d.graph, a.target);
      RemappedLocal(r, c.graph, d.graph, a, ns, es);
      assert ReplaceNode(r, d, a, policy) == AddEdgeSetTracked(d2, edges);
      var c3, d3 := AddEdgeSetTracked(c2, edges).value, AddEdgeSetTracked(d2, edges).value;
      MirrorsTwice(c, c1, c2, d, d1, d2, ns, es);
      MirrorsTwice(c, c2, c3, d, d2, d3, ns, es);
    }
  }

  lemma {:induction false} ApplyOneLocal(r: Resolver, c: Candidate, d: Candidate, a: Action, default: RemovePolicy,
                      ns: set<Id>, es: set<Id>)
    requires Agree(c.graph, d.graph, ns, es)
    requires ApplyOne(r, c, a, default).Some? ==> Within(ApplyOne(r, c, a, default).value, ns, es)
    ensures Mirrors(c, ApplyOne(r, c, a, default), d, ApplyOne(r, d, a, default), ns, es)
  {
    if ApplyOne(r, c, a, default).Some? {
      match a
      case AddNodeAction(node) => AddNodeLocal(c, d, node, ns, es);
      case RemoveNodeAction(target, mode, policy) =>
        if mode.Bypass? {
          RemoveChainLocal(c, d, [target], mode, PolicyOr(policy, default), ns, es);
        } else {
          RemoveNodeLocal(c, d, target, PolicyOr(policy, default), ns, es);
        }
      case InsertChainAction(_, _, _, _) => InsertChainLocal(r, c, d, a, ns, es);
      case RemoveChainAction(nodes, mode, policy) =>
        RemoveChainLocal(c, d, nodes, mode, PolicyOr(policy, default), ns, es);
      case ReplaceNodeAction(_, _, _, _, policy) =>
        ReplaceNodeLocal(r, c, d, a, PolicyOr(policy, default), ns, es);
      case RemoveBranchAction(_, nodes, policy, _) =>
        RemoveNodesTouch(c, nodes, PolicyOr(policy, default));
        RemoveNodesLocal(c, d, nodes, PolicyOr(policy, default), ns, es);
        BranchLocal(c.graph, d.graph, nodes, EntryEdges(a), ns, es);
      case AddEdgeAction(newEdge) => AddEdgeLocal(c, d, newEdge, ns, es);
      case RemoveEdgeAction(edge) => RemoveEdgesLocal(c, d, {edge}, ns, es);
      case SetNodeOptionsAction(target, parameters) => assert SameNode(c.graph, d.graph, target);
    }
  }

  /** Main result: a list of actions replays on any graph that agrees on its footprint. */
  lemma {:induction false} ApplyAllLocal(r: Resolver, c: Candidate, d: Candidate, actions: seq<Action>,
                                         default: RemovePolicy, ns: set<Id>, es: set<Id>)
    requires Agree(c.graph, d.graph, ns, es)
    requires ApplyAll(r, c, actions, default).Some? ==> Within(ApplyAll(r, c, actions, default).value, ns, es)
    ensures Mirrors(c, ApplyAll(r, c, actions, default), d, ApplyAll(r, d, actions, default), ns, es)
  {
    if actions != [] && ApplyAll(r, c, actions, default).Some? {
      var front, last := actions[..|actions| - 1], actions[|actions| - 1];
      var c1 := ApplyAll(r, c, front, default).value;
      ApplyOneTouch(r, c1, last, default);
      ApplyAllLocal(r, c, d, front, default, ns, es);
      var d1 := ApplyAll(r, d, front, default).value;
      ApplyOneLocal(r, c1, d1, last, default, ns, es);
      MirrorsTwice(c, c1, ApplyAll(r, c, actions, default).value, d, d1, ApplyAll(r, d, actions, default).value, ns, es);
    }
  }

  lemma {:induction false} AgreeBack(g: Graph, h: Graph, ns: set<Id>, es: set<Id>)
    requires Agree(g, h, ns, es)
    ensures Agree(h, g, ns, es)
  {
    forall n | n in ns ensures SameNode(h, g, n) {
      assert SameNode(g, h, n);
    }
    forall e | e in es || Meets(g, e, ns) || Meets(h, e, ns) ensures SameEdge(h, g, e) {
      assert SameEdge(g, h, e);
    }
  }

  /** Success is mirrored both ways, as long as the footprint holds what either run touches. */
  lemma {:induction false} SucceedsOnBoth(r: Resolver, c: Candidate, d: Candidate, actions: seq<Action>,
                                          default: RemovePolicy, ns: set<Id>, es: set<Id>)
    requires Agree(c.graph, d.graph, ns, es)
    requires ApplyAll(r, c, actions, default).Some? ==> Within(ApplyAll(r, c, actions, default).value, ns, es)
    requires ApplyAll(r, d, actions, default).Some? ==> Within(ApplyAll(r, d, actions, default).value, ns, es)
    ensures ApplyAll(r, c, actions, default).Some? <==> ApplyAll(r, d, actions, default).Some?
  {
    AgreeBack(c.graph, d.graph, ns, es);
    ApplyAllLocal(r, c, d, actions, default, ns, es);
    ApplyAllLocal(r, d, c, actions, default, ns, es);
  }
}
