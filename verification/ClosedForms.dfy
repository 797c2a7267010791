/** What a list of tracked primitives amounts to, without the recursion. */
module ClosedForms {
  import opened Wrappers
  import opened GraphModel
  import opened MutationModel

  // -------------------------------------------------------------------------
  // Removing nodes

  function IncidentTo(g: Graph, sel: set<Id>): set<Id> {
    set e | e in g.edges && (g.edges[e].from.node in sel || g.edges[e].to.node in sel)
  }

  ghost function GraphWithout(g: Graph, sel: set<Id>): Graph {
    Graph(g.nodes - sel, g.edges - IncidentTo(g, sel))
  }

  /** d is c after removing the nodes sel together with every edge that meets them. */
  ghost predicate IsWithout(c: Candidate, sel: set<Id>, policy: RemovePolicy, d: Candidate) {
    var gone := IncidentTo(c.graph, sel);
    && d.graph == GraphWithout(c.graph, sel)
    && d.addedNodes == c.addedNodes - sel
    && d.removedNodes == c.removedNodes + (sel - c.addedNodes)
    && d.addedEdges == c.addedEdges - gone
    && d.removedEdges == c.removedEdges + (gone - c.addedEdges)
    && d.nodePolicy == c.nodePolicy + (map n | n in sel - c.addedNodes :: policy)
    && d.parameterUpdates == c.parameterUpdates
  }

  lemma {:induction false} GraphWithoutNone(g: Graph)
    ensures GraphWithout(g, {}) == g
  {
    assert IncidentTo(g, {}) == {};
    assert g.nodes - {} == g.nodes && g.edges - {} == g.edges;
  }

  lemma {:induction false} GraphWithoutStep(g: Graph, sel: set<Id>, n: Id)
    ensures RemoveNode(GraphWithout(g, sel), n) == GraphWithout(g, sel + {n})
    ensures IncidentTo(g, sel + {n}) == IncidentTo(g, sel) + Incident(GraphWithout(g, sel), n)
    ensures IncidentTo(g, sel) !! Incident(GraphWithout(g, sel), n)
  {
    var h := GraphWithout(g, sel);
    assert IncidentTo(g, sel + {n}) == IncidentTo(g, sel) + Incident(h, n);
    assert RemoveNode(h, n).nodes == GraphWithout(g, sel + {n}).nodes;
    assert RemoveNode(h, n).edges == GraphWithout(g, sel + {n}).edges;
  }

  /** Taking away two disjoint batches is taking away their union. */
  lemma {:induction false} TwoBatches(added: set<Id>, removed: set<Id>, s: set<Id>, t: set<Id>)
    requires s !! t
    ensures (added - s) - t == added - (s + t)
    ensures (removed + (s - added)) + (t - (added - s)) == removed + ((s + t) - added)
  {
  }

  lemma {:induction false} PolicyStep(p: map<Id, RemovePolicy>, sel: set<Id>, added: set<Id>, n: Id,
        policy: RemovePolicy)
    ensures n in added ==>
              p + (map m | m in (sel + {n}) - added :: policy) == p + (map m | m in sel - added :: policy)
    ensures n !in added ==>
              p + (map m | m in (sel + {n}) - added :: policy) == (p + (map m | m in sel - added :: policy))[n := policy]
  {
    if n in added {
      assert (sel + {n}) - added == sel - added;
    } else {
      assert (sel + {n}) - added == (sel - added) + {n};
    }
  }

  lemma {:induction false} RemoveNodeStep(c: Candidate, sel: set<Id>, n: Id, policy: RemovePolicy, d: Candidate)
    requires n in c.graph.nodes && n !in sel && IsWithout(c, sel, policy, d)
    ensures RemoveNodeTracked(d, n, policy).Some?
    ensures IsWithout(c, sel + {n}, policy, RemoveNodeTracked(d, n, policy).value)
  {
    var e := RemoveNodeTracked(d, n, policy).value;
    GraphWithoutStep(c.graph, sel, n);
    TwoBatches(c.addedNodes, c.removedNodes, sel, {n});
    TwoBatches(c.addedEdges, c.removedEdges, IncidentTo(c.graph, sel), Incident(d.graph, n));
    PolicyStep(c.nodePolicy, sel, c.addedNodes, n, policy);
    assert e.addedNodes == d.addedNodes - {n};
    assert e.removedNodes == d.removedNodes + ({n} - d.addedNodes);
    assert n in d.addedNodes <==> n in c.addedNodes;
  }

  ghost predicate AllIn(ids: seq<Id>, nodes: set<Id>) {
    forall i :: 0 <= i < |ids| ==> ids[i] in nodes
  }

  lemma {:induction false} OneMoreId(front: seq<Id>, last: Id, nodes: set<Id>)
    ensures NoRepeats(front + [last]) <==> NoRepeats(front) && last !in front
    ensures AllIn(front + [last], nodes) <==> AllIn(front, nodes) && last in nodes
    ensures Elements(front + [last]) == Elements(front) + {last}
  {
    var ids := front + [last];
    assert ids[|front|] == last && forall i :: 0 <= i < |front| ==> ids[i] == front[i];
  }

  /** Removing a list of nodes succeeds exactly when they exist and none is named twice. */
  lemma {:induction false} RemoveNodesClosed(c: Candidate, ids: seq<Id>, policy: RemovePolicy)
    ensures RemoveNodesTracked(c, ids, policy).Some? <==> NoRepeats(ids) && AllIn(ids, c.graph.nodes.Keys)
    ensures RemoveNodesTracked(c, ids, policy).Some?
            ==> IsWithout(c, Elements(ids), policy, RemoveNodesTracked(c, ids, policy).value)
  {
    if ids == [] {
      GraphWithoutNone(c.graph);
    } else {
      var front, last := ids[..|ids| - 1], ids[|ids| - 1];
      RemoveNodesClosed(c, front, policy);
      assert ids == front + [last];
      OneMoreId(front, last, c.graph.nodes.Keys);
      if RemoveNodesTracked(c, front, policy).Some? {
        var d := RemoveNodesTracked(c, front, policy).value;
        assert last in d.graph.nodes <==> last in c.graph.nodes && last !in front;
        if last in d.graph.nodes {
          RemoveNodeStep(c, Elements(front), last, policy, d);
        }
      }
    }
  }

  // -------------------------------------------------------------------------
  // Adding nodes

  function NodeIds(xs: seq<NodeSpec>): seq<Id> {
    seq(|xs|, i requires 0 <= i < |xs| => xs[i].id)
  }

  ghost predicate IsWithNodes(c: Candidate, ids: seq<Id>, d: Candidate) {
    && NoRepeats(ids)
    && Elements(ids) !! c.graph.nodes.Keys
    && d.graph.nodes.Keys == c.graph.nodes.Keys + Elements(ids)
    && d.graph.nodes - Elements(ids) == c.graph.nodes
    && d == c.(graph := Graph(d.graph.nodes, c.graph.edges), addedNodes := c.addedNodes + Elements(ids),
               touchedNodes := d.touchedNodes)
  }

  ghost predicate HasNodes(g: Graph, xs: seq<NodeSpec>) {
    forall k :: 0 <= k < |xs| ==> xs[k].id in g.nodes && g.nodes[xs[k].id] == xs[k]
  }

  lemma {:induction false} AddNodeStep(c: Candidate, front: seq<NodeSpec>, last: NodeSpec, d: Candidate)
    requires IsWithNodes(c, NodeIds(front), d) && HasNodes(d.graph, front) && AddNodeTracked(d, last).Some?
    ensures IsWithNodes(c, NodeIds(front + [last]), AddNodeTracked(d, last).value)
    ensures HasNodes(AddNodeTracked(d, last).value.graph, front + [last])
  {
    var ids, e := NodeIds(front), AddNodeTracked(d, last).value;
    assert NodeIds(front + [last]) == ids + [last.id];
    assert Elements(ids + [last.id]) == Elements(ids) + {last.id};
    assert e.graph.nodes - Elements(ids + [last.id]) == d.graph.nodes - Elements(ids);
  }

  /** Adding a list of nodes adds exactly them, under ids that are new and distinct. */
  lemma {:induction false} AddNodesClosed(c: Candidate, xs: seq<NodeSpec>)
    requires AddNodesTracked(c, xs).Some?
    ensures IsWithNodes(c, NodeIds(xs), AddNodesTracked(c, xs).value)
    ensures HasNodes(AddNodesTracked(c, xs).value.graph, xs)
  {
    if xs == [] {
      assert c.graph.nodes - {} == c.graph.nodes;
    } else {
      var front, last := xs[..|xs| - 1], xs[|xs| - 1];
      assert front + [last] == xs;
      AddNodesClosed(c, front);
      AddNodeStep(c, front, last, AddNodesTracked(c, front).value);
    }
  }

  // -------------------------------------------------------------------------
  // Adding edges

  function EdgeIds(es: seq<EdgeSpec>): seq<Id> {
    seq(|es|, k requires 0 <= k < |es| => WithId(es[k]).id)
  }

  ghost predicate HasEdges(g: Graph, es: seq<EdgeSpec>) {
    forall k :: 0 <= k < |es| ==> WithId(es[k]).id in g.edges && g.edges[WithId(es[k]).id] == WithId(es[k])
  }

  ghost predicate IsWithEdges(c: Candidate, es: seq<EdgeSpec>, d: Candidate) {
    var ids := EdgeIds(es);
    && NoRepeats(ids)
    && Elements(ids) !! c.graph.edges.Keys
    && d.graph.edges.Keys == c.graph.edges.Keys + Elements(ids)
    && d.graph.edges - Elements(ids) == c.graph.edges
    && HasEdges(d.graph, es)
    && d == c.(graph := Graph(c.graph.nodes, d.graph.edges), addedEdges := c.addedEdges + Elements(ids),
               touchedNodes := d.touchedNodes, touchedEdges := d.touchedEdges)
  }

  lemma {:induction false} AddEdgeStep(c: Candidate, front: seq<EdgeSpec>, last: EdgeSpec, d: Candidate)
    requires IsWithEdges(c, front, d) && AddEdgeTracked(d, last).Some?
    ensures IsWithEdges(c, front + [last], AddEdgeTracked(d, last).value)
  {
    var id := WithId(last).id;
    var es := front + [last];
    var e := AddEdgeTracked(d, last).value;
    assert EdgeIds(es) == EdgeIds(front) + [id];
    assert Elements(EdgeIds(es)) == Elements(EdgeIds(front)) + {id};
    assert id !in d.graph.edges;
    assert e.graph.edges - Elements(EdgeIds(es)) == d.graph.edges - Elements(EdgeIds(front));
  }

  lemma {:induction false} AddEdgesClosed(c: Candidate, es: seq<EdgeSpec>)
    requires AddEdgesTracked(c, es).Some?
    ensures IsWithEdges(c, es, AddEdgesTracked(c, es).value)
  {
    if es == [] {
      assert c.graph.edges - {} == c.graph.edges;
    } else {
      var front, last := es[..|es| - 1], es[|es| - 1];
      assert front + [last] == es;
      AddEdgesClosed(c, front);
      AddEdgeStep(c, front, last, AddEdgesTracked(c, front).value);
    }
  }

  // -------------------------------------------------------------------------
  // When a list can be added

  lemma {:induction false} AddNodesIff(c: Candidate, xs: seq<NodeSpec>)
    ensures AddNodesTracked(c, xs).Some? <==>
            && NoRepeats(NodeIds(xs)) && Elements(NodeIds(xs)) !! c.graph.nodes.Keys
            && forall k :: 0 <= k < |xs| ==> NodeOk(xs[k])
    ensures WellFormed(c.graph) && AddNodesTracked(c, xs).Some? ==> WellFormed(AddNodesTracked(c, xs).value.graph)
  {
    if xs != [] {
      var front, last := xs[..|xs| - 1], xs[|xs| - 1];
      var ids := NodeIds(front);
      AddNodesIff(c, front);
      assert NodeIds(xs) == ids + [last.id];
      OneMoreId(ids, last.id, {});
      assert forall k :: 0 <= k < |front| ==> xs[k] == front[k];
      if AddNodesTracked(c, front).Some? {
        NodeAfter(c, front, last.id);
        var d := AddNodesTracked(c, front).value;
        if WellFormed(c.graph) && AddNode(d.graph, last).Some? {
          AddNodeWellFormed(d.graph, last);
        }
      }
    }
  }

  lemma {:induction false} NodeAfter(c: Candidate, xs: seq<NodeSpec>, n: Id)
    requires AddNodesTracked(c, xs).Some?
    ensures n in AddNodesTracked(c, xs).value.graph.nodes <==> n in c.graph.nodes || n in NodeIds(xs)
  {
    AddNodesClosed(c, xs);
    assert n in AddNodesTracked(c, xs).value.graph.nodes.Keys <==> n in c.graph.nodes.Keys || n in Elements(NodeIds(xs));
  }

  /** The edges fit the graph one by one, and no two of them clash. */
  ghost predicate FitTogether(g: Graph, es: seq<EdgeSpec>) {
    && (forall k :: 0 <= k < |es| ==> CanAddEdge(g, WithId(es[k])))
    && (forall k, l :: 0 <= k < l < |es| ==> NoClash(WithId(es[k]), WithId(es[l])))
  }

  ghost predicate NoClash(e: EdgeSpec, f: EdgeSpec) {
    e.id != f.id && !SamePair(e, f)
  }

  lemma {:induction false} FitsBehind(c: Candidate, front: seq<EdgeSpec>, d: Candidate, e: EdgeSpec)
    requires IsWithEdges(c, front, d) && e.id != ""
    ensures CanAddEdge(d.graph, e) <==>
            CanAddEdge(c.graph, e) && forall k :: 0 <= k < |front| ==> NoClash(WithId(front[k]), e)
  {
    var ids := EdgeIds(front);
    assert forall f :: f in c.graph.edges ==>
             f in (d.graph.edges - Elements(ids)).Keys && d.graph.edges[f] == c.graph.edges[f];
    forall k | 0 <= k < |front|
      ensures WithId(front[k]).id in d.graph.edges && d.graph.edges[WithId(front[k]).id] == WithId(front[k])
    {
      assert ids[k] == WithId(front[k]).id;
    }
    if CanAddEdge(d.graph, e) {
      assert PairFree(c.graph, e) by {
        forall f | f in c.graph.edges ensures !SamePair(c.graph.edges[f], e) {
          assert d.graph.edges[f] == c.graph.edges[f];
        }
      }
    }
    if CanAddEdge(c.graph, e) && forall k :: 0 <= k < |front| ==> NoClash(WithId(front[k]), e) {
      forall f | f in d.graph.edges ensures f != e.id && !SamePair(d.graph.edges[f], e) {
        if f !in c.graph.edges {
          assert f in Elements(ids);
          var k :| 0 <= k < |ids| && ids[k] == f;
          assert NoClash(WithId(front[k]), e);
        }
      }
    }
  }

  lemma {:induction false} AddEdgesIff(c: Candidate, es: seq<EdgeSpec>)
    ensures AddEdgesTracked(c, es).Some? <==> FitTogether(c.graph, es)
    ensures WellFormed(c.graph) && AddEdgesTracked(c, es).Some? ==> WellFormed(AddEdgesTracked(c, es).value.graph)
  {
    if es != [] {
      var front, last := es[..|es| - 1], es[|es| - 1];
      assert front + [last] == es;
      AddEdgesIff(c, front);
      if AddEdgesTracked(c, front).Some? {
        AddOneMore(c, front, last);
      } else if FitTogether(c.graph, es) {
        FitPrefix(c.graph, front, last);
      }
    }
  }

  lemma {:induction false} FitPrefix(g: Graph, front: seq<EdgeSpec>, last: EdgeSpec)
    requires FitTogether(g, front + [last])
    ensures FitTogether(g, front)
  {
    var es := front + [last];
    assert forall k :: 0 <= k < |front| ==> es[k] == front[k];
  }

  lemma {:induction false} AddOneMore(c: Candidate, front: seq<EdgeSpec>, last: EdgeSpec)
    requires AddEdgesTracked(c, front).Some? && FitTogether(c.graph, front)
    requires WellFormed(c.graph) ==> WellFormed(AddEdgesTracked(c, front).value.graph)
    ensures AddEdgeTracked(AddEdgesTracked(c, front).value, last).Some? <==> FitTogether(c.graph, front + [last])
    ensures WellFormed(c.graph) && AddEdgeTracked(AddEdgesTracked(c, front).value, last).Some? ==>
              WellFormed(AddEdgeTracked(AddEdgesTracked(c, front).value, last).value.graph)
  {
    var d := AddEdgesTracked(c, front).value;
    AddEdgesClosed(c, front);
    DerivedIsNotEmpty(last);
    FitsBehind(c, front, d, WithId(last));
    FitTogetherMore(c.graph, front, last);
    if WellFormed(c.graph) && AddEdge(d.graph, last).Some? {
      AddEdgeWellFormed(d.graph, last);
    }
  }

  lemma {:induction false} DerivedIsNotEmpty(e: EdgeSpec)
    ensures WithId(e).id != ""
  {
    assert |DeriveEdgeId(e.from, e.to)| >= 4;
  }

  lemma {:induction false} FitTogetherMore(g: Graph, front: seq<EdgeSpec>, last: EdgeSpec)
    requires FitTogether(g, front)
    ensures FitTogether(g, front + [last]) <==>
            CanAddEdge(g, WithId(last)) && forall k :: 0 <= k < |front| ==> NoClash(WithId(front[k]), WithId(last))
  {
    var es := front + [last];
    assert es[|front|] == last;
    assert forall k :: 0 <= k < |front| ==> es[k] == front[k];
  }
}
