/**
 * MutationApplier as the source writes it: every action edits a CandidateSpec
 * in place, edge by edge and list by list. Each method is proved to compute
 * the order-free meaning its action has in MutationModel.
 */
module MutationApplier {
  import opened Wrappers
  import opened GraphModel
  import opened GraphSpecs
  import M = MutationModel
  import C = ChangeSets
  import F = ClosedForms

  // -------------------------------------------------------------------------
  // The vectors of a candidate

  datatype ChangeLists = ChangeLists(
    addedNodes: seq<Id>, removedNodes: seq<Id>,
    addedEdges: seq<Id>, removedEdges: seq<Id>,
    nodePolicy: map<Id, RemovePolicy>,
    parameterUpdates: seq<(Id, Json)>,
    touchedNodes: seq<Id>, touchedEdges: seq<Id>)

  /** A vector that holds the elements of a set, each once. */
  ghost predicate ListsSet(xs: seq<Id>, s: set<Id>) {
    NoRepeats(xs) && M.Elements(xs) == s
  }

  ghost predicate ListsAll(l: ChangeLists, c: M.Candidate) {
    && ListsSet(l.addedNodes, c.addedNodes)
    && ListsSet(l.removedNodes, c.removedNodes)
    && ListsSet(l.addedEdges, c.addedEdges)
    && ListsSet(l.removedEdges, c.removedEdges)
    && ListsSet(l.touchedNodes, c.touchedNodes)
    && ListsSet(l.touchedEdges, c.touchedEdges)
    && l.nodePolicy == c.nodePolicy
    && l.parameterUpdates == c.parameterUpdates
  }

  function Touch(xs: seq<Id>, id: Id): seq<Id> {
    if id in xs then xs else xs + [id]
  }

  function EraseFirst(xs: seq<Id>, id: Id): seq<Id> {
    if xs == [] then [] else if xs[0] == id then xs[1..] else [xs[0]] + EraseFirst(xs[1..], id)
  }

  lemma {:induction false} TouchLists(xs: seq<Id>, id: Id, s: set<Id>)
    requires ListsSet(xs, s)
    ensures ListsSet(Touch(xs, id), s + {id})
  {
    assert M.Elements(Touch(xs, id)) == s + {id};
  }

  lemma {:induction false} AppendLists(xs: seq<Id>, s: set<Id>, x: Id)
    requires ListsSet(xs, s) && x !in s
    ensures ListsSet(xs + [x], s + {x})
  {
    assert M.Elements(xs + [x]) == s + {x};
  }

  lemma {:induction false} EraseLists(xs: seq<Id>, id: Id, s: set<Id>)
    requires ListsSet(xs, s)
    ensures ListsSet(EraseFirst(xs, id), s - {id})
  {
    if xs == [] {
      assert s - {id} == s;
    } else {
      var rest := xs[1..];
      assert xs == [xs[0]] + rest;
      assert M.Elements(rest) == s - {xs[0]};
      if xs[0] != id {
        EraseLists(rest, id, s - {xs[0]});
        var r := EraseFirst(rest, id);
        assert xs[0] in s && xs[0] !in M.Elements(r);
        assert M.Elements([xs[0]] + r) == {xs[0]} + M.Elements(r);
      }
    }
  }

  function NoteNodeAdded(l: ChangeLists, n: Id): ChangeLists {
    l.(addedNodes := l.addedNodes + [n], touchedNodes := Touch(l.touchedNodes, n))
  }

  function NoteEdgeAdded(l: ChangeLists, e: EdgeSpec): ChangeLists {
    l.(addedEdges := l.addedEdges + [e.id],
       touchedNodes := Touch(Touch(l.touchedNodes, e.from.node), e.to.node),
       touchedEdges := Touch(l.touchedEdges, e.id))
  }

  function NoteEdgeRemoved(l: ChangeLists, e: EdgeSpec): ChangeLists {
    var m := l.(touchedNodes := Touch(Touch(l.touchedNodes, e.from.node), e.to.node),
                touchedEdges := Touch(l.touchedEdges, e.id));
    if e.id in l.addedEdges then m.(addedEdges := EraseFirst(l.addedEdges, e.id))
    else m.(removedEdges := l.removedEdges + [e.id])
  }

  function NoteNodeRemoved(l: ChangeLists, n: Id, policy: RemovePolicy): ChangeLists {
    var m := l.(touchedNodes := Touch(l.touchedNodes, n));
    if n in l.addedNodes then m.(addedNodes := EraseFirst(l.addedNodes, n))
    else m.(removedNodes := l.removedNodes + [n], nodePolicy := l.nodePolicy[n := policy])
  }

  function NoteOptions(l: ChangeLists, n: Id, parameters: Json): ChangeLists {
    l.(parameterUpdates := l.parameterUpdates + [(n, parameters)], touchedNodes := Touch(l.touchedNodes, n))
  }

  ghost predicate Represents(base: Graph, l: ChangeLists, c: M.Candidate) {
    ListsAll(l, c) && C.Tracked(base, c)
  }

  lemma {:induction false} NodeAddedOk(base: Graph, l: ChangeLists, c: M.Candidate, n: NodeSpec)
    requires Represents(base, l, c) && M.AddNodeTracked(c, n).Some?
    ensures Represents(base, NoteNodeAdded(l, n.id), M.AddNodeTracked(c, n).value)
  {
    AppendLists(l.addedNodes, c.addedNodes, n.id);
    TouchLists(l.touchedNodes, n.id, c.touchedNodes);
    C.AddNodeTrackedOk(base, c, n);
  }

  lemma {:induction false} TouchEnds(xs: seq<Id>, e: EdgeSpec, s: set<Id>)
    requires ListsSet(xs, s)
    ensures ListsSet(Touch(Touch(xs, e.from.node), e.to.node), s + {e.from.node, e.to.node})
  {
    TouchLists(xs, e.from.node, s);
    TouchLists(Touch(xs, e.from.node), e.to.node, s + {e.from.node});
    assert s + {e.from.node} + {e.to.node} == s + {e.from.node, e.to.node};
  }

  lemma {:induction false} EdgeAddedOk(base: Graph, l: ChangeLists, c: M.Candidate, e: EdgeSpec)
    requires Represents(base, l, c) && M.AddEdgeTracked(c, e).Some?
    ensures Represents(base, NoteEdgeAdded(l, WithId(e)), M.AddEdgeTracked(c, e).value)
  {
    AppendLists(l.addedEdges, c.addedEdges, WithId(e).id);
    TouchEnds(l.touchedNodes, e, c.touchedNodes);
    TouchLists(l.touchedEdges, WithId(e).id, c.touchedEdges);
    C.AddEdgeTrackedOk(base, c, e);
  }

  lemma {:induction false} EdgeRemovedOk(base: Graph, l: ChangeLists, c: M.Candidate, id: Id)
    requires Represents(base, l, c) && id in c.graph.edges && c.graph.edges[id].id == id
    ensures Represents(base, NoteEdgeRemoved(l, c.graph.edges[id]), M.RemoveEdgesTracked(c, {id}))
  {
    var e := c.graph.edges[id];
    TouchEnds(l.touchedNodes, e, c.touchedNodes);
    TouchLists(l.touchedEdges, id, c.touchedEdges);
    assert EndNodes(c.graph, {id}) == {e.from.node, e.to.node};
    if id in c.addedEdges {
      EraseLists(l.addedEdges, id, c.addedEdges);
      assert {id} - c.addedEdges == {};
    } else {
      AppendLists(l.removedEdges, c.removedEdges, id);
      assert {id} - c.addedEdges == {id} && c.addedEdges - {id} == c.addedEdges;
    }
    C.RemoveEdgesTrackedOk(base, c, {id});
  }

  /** Removing a node's edges first and then the node is removing the node. */
  lemma {:induction false} NodeRemovedOk(base: Graph, l: ChangeLists, c: M.Candidate, n: Id, policy: RemovePolicy)
    requires n in c.graph.nodes && C.Tracked(base, c)
    requires ListsAll(l, M.RemoveEdgesTracked(c, Incident(c.graph, n)))
    ensures Represents(base, NoteNodeRemoved(l, n, policy), M.RemoveNodeTracked(c, n, policy).value)
  {
    var d := M.RemoveEdgesTracked(c, Incident(c.graph, n));
    TouchLists(l.touchedNodes, n, d.touchedNodes);
    if n in c.addedNodes {
      EraseLists(l.addedNodes, n, c.addedNodes);
    } else {
      AppendLists(l.removedNodes, c.removedNodes, n);
    }
    C.RemoveNodeTrackedOk(base, c, n, policy);
  }

  class CandidateSpec {
    const candidate: GraphSpec
    var lists: ChangeLists
    ghost const base: Graph
    ghost var view: M.Candidate

    ghost predicate Valid()
      reads this, candidate
    {
      candidate.Valid() && view.graph == candidate.model && Represents(base, lists, view)
    }

    constructor (g: GraphSpec)
      requires g.Valid()
      ensures Valid() && fresh(candidate) && base == g.model && view == M.Start(g.model)
    {
      candidate := new GraphSpec.Copy(g);
      lists := ChangeLists([], [], [], [], map[], [], [], []);
      base := g.model;
      view := M.Start(g.model);
    }
  }

  // -------------------------------------------------------------------------
  // Tracked primitives

  method AddNodeTracked(n: NodeSpec, out: CandidateSpec) returns (s: Status)
    requires out.Valid()
    modifies out, out.candidate
    ensures s.Ok? <==> M.AddNodeTracked(old(out.view), n).Some?
    ensures s.Ok? ==> out.Valid() && Some(out.view) == M.AddNodeTracked(old(out.view), n)
  {
    s := out.candidate.AddNode(n);
    if s.Ok? {
      NodeAddedOk(out.base, out.lists, out.view, n);
      out.lists := NoteNodeAdded(out.lists, n.id);
      out.view := M.AddNodeTracked(out.view, n).value;
    }
  }

  method AddEdgeTracked(edge: EdgeSpec, out: CandidateSpec) returns (s: Status)
    requires out.Valid()
    modifies out, out.candidate
    ensures s.Ok? <==> M.AddEdgeTracked(old(out.view), edge).Some?
    ensures s.Ok? ==> out.Valid() && Some(out.view) == M.AddEdgeTracked(old(out.view), edge)
  {
    var e := WithId(edge);
    WithIdTwice(edge);
    s := out.candidate.AddEdge(e);
    if s.Ok? {
      EdgeAddedOk(out.base, out.lists, out.view, edge);
      out.lists := NoteEdgeAdded(out.lists, e);
      out.view := M.AddEdgeTracked(out.view, edge).value;
    }
  }

  method RemoveEdgeTracked(id: Id, out: CandidateSpec) returns (s: Status)
    requires out.Valid()
    modifies out, out.candidate
    ensures s.Ok? <==> id in old(out.view.graph.edges)
    ensures s.Ok? ==> out.Valid() && out.view == M.RemoveEdgesTracked(old(out.view), {id})
    ensures !s.Ok? ==> s.NotFound?
  {
    var found := out.candidate.FindEdge(id);
    if found.None? {
      return NotFound;
    }
    EdgeRemovedOk(out.base, out.lists, out.view, id);
    s := out.candidate.RemoveEdge(id);
    out.lists := NoteEdgeRemoved(out.lists, found.value);
    out.view := M.RemoveEdgesTracked(out.view, {id});
  }

  // -------------------------------------------------------------------------
  // Removing a node edge by edge

  lemma {:induction false} RemoveEdgesTwice(c: M.Candidate, es: set<Id>, e: Id)
    requires es <= c.graph.edges.Keys && e in c.graph.edges && e !in es
    ensures M.RemoveEdgesTracked(M.RemoveEdgesTracked(c, es), {e}) == M.RemoveEdgesTracked(c, es + {e})
  {
    var d := M.RemoveEdgesTracked(c, es);
    var f := M.RemoveEdgesTracked(d, {e});
    var g := M.RemoveEdgesTracked(c, es + {e});
    assert f.graph.edges == g.graph.edges;
    F.TwoBatches(c.addedEdges, c.removedEdges, es, {e});
    assert EndNodes(c.graph, es + {e}) == EndNodes(c.graph, es) + EndNodes(d.graph, {e});
    assert f.touchedNodes == g.touchedNodes && f.touchedEdges == g.touchedEdges;
  }

  lemma {:induction false} RemoveNodeAfterEdges(g: Graph, n: Id)
    ensures RemoveNode(RemoveEdges(g, Incident(g, n)), n) == RemoveNode(g, n)
  {
    var h := RemoveEdges(g, Incident(g, n));
    assert Incident(h, n) == {};
    assert RemoveNode(h, n).edges == RemoveNode(g, n).edges;
  }

  /** Outgoing edges first, then the incoming ones not yet listed. */
  method IncidentEdges(g: GraphSpec, n: Id) returns (ids: seq<Id>)
    requires g.Lists()
    ensures ListsSet(ids, Incident(g.model, n))
  {
    var outgoing := g.EdgesFrom(n);
    var incoming := g.EdgesTo(n);
    ids := [];
    for i := 0 to |outgoing|
      invariant NoRepeats(ids)
      invariant forall x :: x in ids <==> exists j :: 0 <= j < i && outgoing[j].id == x
    {
      assert outgoing[i].id !in ids;
      ids := ids + [outgoing[i].id];
    }
    ghost var first := ids;
    for i := 0 to |incoming|
      invariant NoRepeats(ids)
      invariant forall x :: x in ids <==> x in first || exists j :: 0 <= j < i && incoming[j].id == x
    {
      if incoming[i].id !in ids {
        ids := ids + [incoming[i].id];
      }
    }
    IncidentListed(g, n, outgoing, incoming, ids);
  }

  lemma {:induction false} IncidentListed(g: GraphSpec, n: Id, outgoing: seq<EdgeSpec>, incoming: seq<EdgeSpec>,
        ids: seq<Id>)
    requires g.Lists()
    requires forall e :: e in outgoing <==> e in g.edges && e.from.node == n
    requires forall e :: e in incoming <==> e in g.edges && e.to.node == n
    requires forall x :: x in ids <==> (exists j :: 0 <= j < |outgoing| && outgoing[j].id == x)
                                       || (exists j :: 0 <= j < |incoming| && incoming[j].id == x)
    ensures M.Elements(ids) == Incident(g.model, n)
  {
    forall x ensures x in ids <==> x in Incident(g.model, n) {
      if x in Incident(g.model, n) {
        var e := g.model.edges[x];
        assert e in outgoing || e in incoming;
      }
    }
  }

  /** c without the first i of the listed edges. */
  ghost function RemovedUpTo(c: M.Candidate, ids: seq<Id>, i: nat): M.Candidate
    requires i <= |ids| && M.Elements(ids) <= c.graph.edges.Keys
  {
    assert forall x :: x in ids[..i] ==> x in M.Elements(ids);
    M.RemoveEdgesTracked(c, M.Elements(ids[..i]))
  }

  lemma {:induction false} RemovedNone(c: M.Candidate, ids: seq<Id>)
    requires M.Elements(ids) <= c.graph.edges.Keys
    ensures RemovedUpTo(c, ids, 0) == c
    ensures RemovedUpTo(c, ids, |ids|) == M.RemoveEdgesTracked(c, M.Elements(ids))
  {
    assert M.Elements(ids[..0]) == {};
    assert c.graph.edges - {} == c.graph.edges;
    assert EndNodes(c.graph, {}) == {};
    assert ids[..|ids|] == ids;
  }

  lemma {:induction false} RemovedOneMore(c: M.Candidate, ids: seq<Id>, i: nat)
    requires i < |ids| && NoRepeats(ids) && M.Elements(ids) <= c.graph.edges.Keys
    ensures ids[i] in RemovedUpTo(c, ids, i).graph.edges
    ensures RemovedUpTo(c, ids, i + 1) == M.RemoveEdgesTracked(RemovedUpTo(c, ids, i), {ids[i]})
  {
    assert ids[i] in M.Elements(ids) && ids[i] !in M.Elements(ids[..i]);
    RemoveEdgesTwice(c, M.Elements(ids[..i]), ids[i]);
    assert M.Elements(ids[..i + 1]) == M.Elements(ids[..i]) + {ids[i]};
  }

  method RemoveEdgeList(ids: seq<Id>, out: CandidateSpec) returns (s: Status)
    requires out.Valid() && NoRepeats(ids) && M.Elements(ids) <= out.view.graph.edges.Keys
    modifies out, out.candidate
    ensures s.Ok?
    ensures out.Valid() && out.view == M.RemoveEdgesTracked(old(out.view), M.Elements(ids))
  {
    ghost var c := out.view;
    RemovedNone(c, ids);
    s := Ok;
    for i := 0 to |ids|
      invariant s.Ok? && out.Valid()
      invariant out.view == RemovedUpTo(c, ids, i)
    {
      RemovedOneMore(c, ids, i);
      s := RemoveEdgeTracked(ids[i], out);
    }
  }

  method RemoveNodeWithEdges(n: Id, policy: RemovePolicy, out: CandidateSpec) returns (s: Status)
    requires out.Valid()
    modifies out, out.candidate
    ensures s.Ok? <==> n in old(out.view.graph.nodes)
    ensures s.Ok? ==> out.Valid() && Some(out.view) == M.RemoveNodeTracked(old(out.view), n, policy)
    ensures !s.Ok? ==> s.NotFound?
  {
    ghost var c := out.view;
    var k := out.candidate.IndexOfNode(n);
    if k == |out.candidate.nodes| {
      return NotFound;
    }
    var incident := IncidentEdges(out.candidate, n);
    s := RemoveEdgeList(incident, out);
    RemoveNodeAfterEdges(c.graph, n);
    s := out.candidate.RemoveNode(n);
    NodeRemovedOk(out.base, out.lists, c, n, policy);
    out.lists := NoteNodeRemoved(out.lists, n, policy);
    out.view := M.RemoveNodeTracked(c, n, policy).value;
  }
}
