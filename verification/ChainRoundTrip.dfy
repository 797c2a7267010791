/**
 * Inserting a chain of new nodes on an edge and removing it again in bypass
 * mode restores the graph, except that the edge is now known by its derived id.
 */
module ChainRoundTrip {
  import opened Wrappers
  import opened GraphModel
  import opened MutationModel
  import opened ChangeSets
  import opened ClosedForms

  /** What InsertChain left behind: d is c minus the split edge plus the chain and its edges. */
  ghost predicate Inserted(r: Resolver, c: Candidate, a: Action, d: Candidate) {
    a.InsertChainAction? && InsertChain(r, c, a) == Some(d)
  }

  ghost function Split(c: Candidate, a: Action): EdgeSpec
    requires a.InsertChainAction? && a.edge in c.graph.edges
  {
    c.graph.edges[a.edge]
  }

  ghost function NewEdges(r: Resolver, c: Candidate, a: Action): seq<EdgeSpec>
    requires a.InsertChainAction? && CanInsert(r, c.graph, a)
  {
    SplitEdges(Split(c, a), a.chain, ResolvedPorts(r, a))
  }

  lemma {:induction false} InsertedParts(r: Resolver, c: Candidate, a: Action, d: Candidate)
    requires Inserted(r, c, a, d)
    ensures var c1 := RemoveEdgesTracked(c, {a.edge});
            AddNodesTracked(c1, a.chain).Some?
            && IsWithNodes(c1, NodeIds(a.chain), AddNodesTracked(c1, a.chain).value)
            && IsWithEdges(AddNodesTracked(c1, a.chain).value, NewEdges(r, c, a), d)
  {
    var c1 := RemoveEdgesTracked(c, {a.edge});
    AddNodesClosed(c1, a.chain);
    AddEdgesClosed(AddNodesTracked(c1, a.chain).value, NewEdges(r, c, a));
  }

  // -------------------------------------------------------------------------
  // The shape of the graph around an inserted chain

  ghost function Before(ids: seq<Id>, a: Id, k: nat): Id {
    if 0 < k <= |ids| then ids[k - 1] else a
  }

  ghost function After(ids: seq<Id>, b: Id, k: nat): Id {
    if k < |ids| then ids[k] else b
  }

  /** The k-th edge runs from member k - 1 to member k, or from a before the first, or to b after the last. */
  ghost predicate Strung(ids: seq<Id>, es: seq<EdgeSpec>, a: Id, b: Id) {
    && |es| == |ids| + 1
    && forall k :: 0 <= k < |es| ==> es[k].from.node == Before(ids, a, k) && es[k].to.node == After(ids, b, k)
  }

  /** Every edge of g is one of g0, away from the chain, or the k-th of es for some k. */
  ghost predicate Spliced(g0: Graph, g: Graph, ids: seq<Id>, es: seq<EdgeSpec>, a: Id, b: Id) {
    && ids != [] && NoRepeats(ids) && Strung(ids, es, a, b)
    && a !in ids && b !in ids && (forall i :: 0 <= i < |ids| ==> ids[i] in g.nodes)
    && (forall k :: 0 <= k < |es| ==> es[k].id in g.edges && g.edges[es[k].id] == es[k])
    && (forall e :: e in g.edges ==> IsOld(g0, g, ids, e) || e in Ids(es))
  }

  ghost predicate IsOld(g0: Graph, g: Graph, ids: seq<Id>, e: Id) {
    e in g.edges && e in g0.edges && g.edges[e] == g0.edges[e] && g.edges[e].from.node !in ids && g.edges[e].to.node !in ids
  }

  ghost function Ids(es: seq<EdgeSpec>): seq<Id> {
    seq(|es|, k requires 0 <= k < |es| => es[k].id)
  }

  /** An edge that meets the chain is one of the new ones. */
  lemma {:induction false} WhichEdge(g0: Graph, g: Graph, ids: seq<Id>, es: seq<EdgeSpec>, a: Id, b: Id,
        e: Id) returns (k: nat)
    requires Spliced(g0, g, ids, es, a, b) && e in g.edges && (g.edges[e].from.node in ids || g.edges[e].to.node in ids)
    ensures k < |es| && e == es[k].id && g.edges[e] == es[k]
    ensures g.edges[e].from.node in ids <==> k > 0
    ensures g.edges[e].to.node in ids <==> k < |ids|
  {
    assert e in Ids(es);
    k :| 0 <= k < |es| && Ids(es)[k] == e;
    Position(ids, es, a, b, k);
  }

  lemma {:induction false} Position(ids: seq<Id>, es: seq<EdgeSpec>, a: Id, b: Id, k: nat)
    requires Strung(ids, es, a, b) && a !in ids && b !in ids && k < |es|
    ensures es[k].from.node in ids <==> k > 0
    ensures es[k].to.node in ids <==> k < |ids|
  {
    assert es[k].from.node == Before(ids, a, k) && es[k].to.node == After(ids, b, k);
  }

  lemma {:induction false} ChainBoundary(g0: Graph, g: Graph, ids: seq<Id>, es: seq<EdgeSpec>, a: Id, b: Id)
    requires Spliced(g0, g, ids, es, a, b)
    ensures Entering(g, Elements(ids)) == {es[0].id}
    ensures Leaving(g, Elements(ids)) == {es[|ids|].id}
    ensures IncidentTo(g, Elements(ids)) == Elements(Ids(es))
  {
    var sel := Elements(ids);
    forall k | 0 <= k < |es|
      ensures (es[k].from.node in sel <==> k > 0) && (es[k].to.node in sel <==> k < |ids|)
    {
      Position(ids, es, a, b, k);
    }
    forall e | e in IncidentTo(g, sel)
      ensures e in Ids(es)
      ensures e in Entering(g, sel) ==> e == es[0].id
      ensures e in Leaving(g, sel) ==> e == es[|ids|].id
    {
      var k := WhichEdge(g0, g, ids, es, a, b, e);
      assert Ids(es)[k] == e;
    }
    forall e | e in Ids(es) ensures e in IncidentTo(g, sel) {
      var k :| 0 <= k < |es| && Ids(es)[k] == e;
      assert k > 0 || k < |ids|;
    }
    assert Entering(g, sel) == {es[0].id} && Leaving(g, sel) == {es[|ids|].id};
  }

  lemma {:induction false} ChainLinks(g0: Graph, g: Graph, ids: seq<Id>, es: seq<EdgeSpec>, a: Id, b: Id, i: nat)
    requires Spliced(g0, g, ids, es, a, b) && i < |ids| - 1
    ensures Between(g, ids[i], ids[i + 1]) == {es[i + 1].id}
  {
    var links := Between(g, ids[i], ids[i + 1]);
    assert es[i + 1].from.node == Before(ids, a, i + 1) && es[i + 1].to.node == After(ids, b, i + 1);
    assert es[i + 1].id in links;
    forall e | e in links ensures e == es[i + 1].id {
      var k := WhichEdge(g0, g, ids, es, a, b, e);
      assert Before(ids, a, k) == ids[i];
      assert ids[k - 1] == ids[i];
    }
  }

  lemma {:induction false} ChainInnerLinear(g0: Graph, g: Graph, ids: seq<Id>, es: seq<EdgeSpec>, a: Id, b: Id)
    requires Spliced(g0, g, ids, es, a, b)
    ensures InnerLinear(g, ids)
  {
    forall e | e in g.edges && g.edges[e].from.node in ids && g.edges[e].to.node in ids
      ensures Consecutive(ids, g.edges[e].from.node, g.edges[e].to.node)
    {
      var k := WhichEdge(g0, g, ids, es, a, b, e);
      assert ids[k - 1] == g.edges[e].from.node && ids[k - 1 + 1] == g.edges[e].to.node;
    }
  }

  /** A spliced chain is a linear chain, entered by the first edge and left by the last. */
  lemma {:induction false} SplicedIsLinear(g0: Graph, g: Graph, ids: seq<Id>, es: seq<EdgeSpec>, a: Id, b: Id)
    requires Spliced(g0, g, ids, es, a, b)
    ensures IsLinearChain(g, ids, es[0].id, es[|ids|].id)
  {
    ChainBoundary(g0, g, ids, es, a, b);
    ChainInnerLinear(g0, g, ids, es, a, b);
    forall i | 0 <= i < |ids| - 1 ensures |Between(g, ids[i], ids[i + 1])| == 1 {
      ChainLinks(g0, g, ids, es, a, b, i);
    }
  }

  // -------------------------------------------------------------------------
  // InsertChain splices

  ghost function Identified(es: seq<EdgeSpec>): (r: seq<EdgeSpec>)
    ensures |r| == |es| && Ids(r) == EdgeIds(es)
  {
    seq(|es|, k requires 0 <= k < |es| => WithId(es[k]))
  }

  lemma {:induction false} SplitEdgeEnds(split: EdgeSpec, chain: seq<NodeSpec>, ps: seq<Ports>, k: nat)
    requires 0 < |chain| == |ps| && k <= |chain|
    ensures var e := WithId(SplitEdge(split, chain, ps, k));
            && e.from.node == (if k == 0 then split.from.node else chain[k - 1].id)
            && e.to.node == (if k == |chain| then split.to.node else chain[k].id)
  {
  }

  lemma {:induction false} NewEdgesStrung(r: Resolver, c: Candidate, a: Action)
    requires a.InsertChainAction? && CanInsert(r, c.graph, a)
    ensures Strung(NodeIds(a.chain), Identified(NewEdges(r, c, a)), Split(c, a).from.node, Split(c, a).to.node)
  {
    var es := Identified(NewEdges(r, c, a));
    forall k | 0 <= k < |es|
      ensures es[k].from.node == Before(NodeIds(a.chain), Split(c, a).from.node, k)
      ensures es[k].to.node == After(NodeIds(a.chain), Split(c, a).to.node, k)
    {
      SplitEdgeEnds(Split(c, a), a.chain, ResolvedPorts(r, a), k);
    }
  }

  lemma {:induction false} OldEdgesApart(g0: Graph, g: Graph, ids: seq<Id>, e: Id)
    requires NoDangling(g0) && e in g.edges && e in g0.edges && g.edges[e] == g0.edges[e]
    requires forall i :: 0 <= i < |ids| ==> ids[i] !in g0.nodes
    ensures IsOld(g0, g, ids, e)
  {
  }

  /** The graph part of an insertion: the split edge goes, the chain and its edges come. */
  lemma {:induction false} InsertedGraph(r: Resolver, c: Candidate, a: Action, d: Candidate)
    requires Inserted(r, c, a, d)
    ensures var ids, es := NodeIds(a.chain), NewEdges(r, c, a);
            && NoRepeats(ids) && Elements(ids) !! c.graph.nodes.Keys && Elements(ids) <= d.graph.nodes.Keys
            && HasEdges(d.graph, es) && d.graph.edges - Elements(EdgeIds(es)) == c.graph.edges - {a.edge}
  {
    InsertedParts(r, c, a, d);
  }

  lemma {:induction false} InsertedIsSpliced(r: Resolver, c: Candidate, a: Action, d: Candidate)
    requires Inserted(r, c, a, d) && NoDangling(c.graph)
    ensures Spliced(c.graph, d.graph, NodeIds(a.chain), Identified(NewEdges(r, c, a)),
                    Split(c, a).from.node, Split(c, a).to.node)
  {
    InsertedGraph(r, c, a, d);
    NewEdgesStrung(r, c, a);
    GraphIsSpliced(c.graph, d.graph, a.edge, NodeIds(a.chain), NewEdges(r, c, a));
  }

  lemma {:induction false} GraphIsSpliced(g0: Graph, g: Graph, split: Id, ids: seq<Id>, es: seq<EdgeSpec>)
    requires NoDangling(g0) && split in g0.edges && ids != [] && NoRepeats(ids)
    requires Elements(ids) !! g0.nodes.Keys && Elements(ids) <= g.nodes.Keys
    requires HasEdges(g, es) && g.edges - Elements(EdgeIds(es)) == g0.edges - {split}
    requires Strung(ids, Identified(es), g0.edges[split].from.node, g0.edges[split].to.node)
    ensures Spliced(g0, g, ids, Identified(es), g0.edges[split].from.node, g0.edges[split].to.node)
  {
    forall i | 0 <= i < |ids| ensures ids[i] !in g0.nodes && ids[i] in g.nodes {
      assert ids[i] in Elements(ids);
    }
    forall e | e in g.edges && e !in EdgeIds(es) ensures IsOld(g0, g, ids, e) {
      assert e in g.edges - Elements(EdgeIds(es));
      assert e in g0.edges - {split} && (g0.edges - {split})[e] == g.edges[e];
      OldEdgesApart(g0, g, ids, e);
    }
  }

  /** The inserted chain is a linear chain again, and its bypass has the ends of the split edge. */
  lemma {:induction false} InsertedIsLinear(r: Resolver, c: Candidate, a: Action, d: Candidate)
    requires Inserted(r, c, a, d) && NoDangling(c.graph)
    ensures var eids := EdgeIds(NewEdges(r, c, a));
            && IsLinearChain(d.graph, NodeIds(a.chain), eids[0], eids[|a.chain|])
            && BypassEdge(d.graph.edges[eids[0]], d.graph.edges[eids[|a.chain|]]) == Split(c, a).(id := "")
            && IncidentTo(d.graph, Elements(NodeIds(a.chain))) == Elements(eids)
  {
    var ids, es := NodeIds(a.chain), Identified(NewEdges(r, c, a));
    InsertedIsSpliced(r, c, a, d);
    SplicedIsLinear(c.graph, d.graph, ids, es, Split(c, a).from.node, Split(c, a).to.node);
    ChainBoundary(c.graph, d.graph, ids, es, Split(c, a).from.node, Split(c, a).to.node);
    assert d.graph.edges[es[0].id] == es[0] && d.graph.edges[es[|ids|].id] == es[|ids|];
  }

  ghost predicate SameButTouched(c: Candidate, d: Candidate) {
    c == d.(touchedNodes := c.touchedNodes, touchedEdges := c.touchedEdges)
  }

  /** Set algebra: what was added and is taken away again leaves no trace. */
  lemma {:induction false} AddThenTakeAway(added: set<Id>, removed: set<Id>, s: set<Id>, now: set<Id>)
    requires added <= now && s !! now
    ensures (added + s) - s == added
    ensures removed + (s - (added + s)) == removed
  {
  }

  /** Removing the chain's nodes undoes the insertion, up to the split edge. */
  lemma {:induction false} RemovingChainRestores(r: Resolver, base: Graph, c: Candidate, a: Action, d: Candidate,
        policy: RemovePolicy)
    requires Inserted(r, c, a, d) && NoDangling(c.graph) && Tracked(base, c)
    ensures RemoveNodesTracked(d, NodeIds(a.chain), policy).Some?
    ensures SameButTouched(RemoveNodesTracked(d, NodeIds(a.chain), policy).value, RemoveEdgesTracked(c, {a.edge}))
  {
    InsertedParts(r, c, a, d);
    InsertedIsLinear(r, c, a, d);
    var c1 := RemoveEdgesTracked(c, {a.edge});
    Undo(c1, AddNodesTracked(c1, a.chain).value, NodeIds(a.chain), NewEdges(r, c, a), d, policy);
  }

  lemma {:induction false} Undo(c: Candidate, c2: Candidate, ids: seq<Id>, es: seq<EdgeSpec>, d: Candidate,
        policy: RemovePolicy)
    requires c.addedNodes <= c.graph.nodes.Keys && c.addedEdges <= c.graph.edges.Keys
    requires IsWithNodes(c, ids, c2) && IsWithEdges(c2, es, d)
    requires IncidentTo(d.graph, Elements(ids)) == Elements(EdgeIds(es))
    ensures RemoveNodesTracked(d, ids, policy).Some?
    ensures SameButTouched(RemoveNodesTracked(d, ids, policy).value, c)
  {
    var sel, eids := Elements(ids), Elements(EdgeIds(es));
    assert forall i :: 0 <= i < |ids| ==> ids[i] in sel;
    RemoveNodesClosed(d, ids, policy);
    var x := RemoveNodesTracked(d, ids, policy).value;
    assert x.graph == c.graph;
    AddThenTakeAway(c.addedNodes, c.removedNodes, sel, c.graph.nodes.Keys);
    AddThenTakeAway(c.addedEdges, c.removedEdges, eids, c.graph.edges.Keys);
    assert sel - d.addedNodes == {};
    assert x.nodePolicy == c.nodePolicy;
  }

  lemma {:induction false} ReaddSplit(base: Graph, c: Candidate, e: Id)
    requires Exact(base, c) && e in c.graph.edges
    ensures var s := c.graph.edges[e];
            var derived := DeriveEdgeId(s.from, s.to);
            CanAddEdge(RemoveEdges(c.graph, {e}), WithId(s.(id := ""))) <==> derived !in c.graph.edges - {e}
  {
    var s := c.graph.edges[e];
    var g := RemoveEdges(c.graph, {e});
    assert WithId(s.(id := "")) == s.(id := DeriveEdgeId(s.from, s.to));
    forall f | f in g.edges ensures !SamePair(g.edges[f], s) {
      assert SamePair(c.graph.edges[f], c.graph.edges[e]) ==> f == e;
    }
  }

  /**
   * Insert-then-bypass: the bypass succeeds exactly when the derived id of the
   * split edge is not the id of another edge. It then gives back the nodes and
   * edges there were, with that one edge renamed, and the node change sets are
   * those from before the insertion.
   */
  lemma {:induction false} InsertThenBypass(r: Resolver, base: Graph, c: Candidate, a: Action, d: Candidate,
        policy: RemovePolicy)
    requires Exact(base, c) && Inserted(r, c, a, d)
    ensures var s := c.graph.edges[a.edge];
            var derived := DeriveEdgeId(s.from, s.to);
            var back := RemoveChain(d, NodeIds(a.chain), Bypass, policy);
            && (back.Some? <==> derived !in c.graph.edges - {a.edge})
            && (back.Some? ==>
                  && back.value.graph == Graph(c.graph.nodes, (c.graph.edges - {a.edge})[derived := s.(id := derived)])
                  && back.value.addedNodes == c.addedNodes
                  && back.value.removedNodes == c.removedNodes
                  && back.value.nodePolicy == c.nodePolicy)
  {
    var s := c.graph.edges[a.edge];
    var ids, eids := NodeIds(a.chain), EdgeIds(NewEdges(r, c, a));
    InsertedIsLinear(r, c, a, d);
    BypassAt(d, ids, policy, eids[0], eids[|a.chain|]);
    RemovingChainRestores(r, base, c, a, d, policy);
    var x := RemoveNodesTracked(d, ids, policy).value;
    assert RemoveChain(d, ids, Bypass, policy) == AddEdgeTracked(x, s.(id := ""));
    assert x.graph == RemoveEdges(c.graph, {a.edge});
    ReaddSplit(base, c, a.edge);
  }
}
