/**
 * What the composite actions do to a graph, said on the graph and the action
 * alone: which ports an inserted chain and a replaced node end up on, what a
 * bypass inherits, which removal policy is recorded, and exactly when a
 * replacement is possible.
 */
module ActionEffects {
  import opened Wrappers
  import opened GraphModel
  import opened MutationModel
  import opened ClosedForms
  import ChangeSets

  // -------------------------------------------------------------------------
  // replace_node

  /** Where an edge into the replaced node lands: as mapped, else where it was if that port is declared. */
  predicate LandsIn(r: Resolver, a: Action, was: string, now: string)
    requires a.ReplaceNodeAction?
  {
    if a.mapping.Some? then was in a.mapping.value.inputs && now == a.mapping.value.inputs[was]
    else now == was && (r(a.op).Some? ==> exists p :: p in r(a.op).value.inputs && p.name == was)
  }

  predicate LandsOut(r: Resolver, a: Action, was: string, now: string)
    requires a.ReplaceNodeAction?
  {
    if a.mapping.Some? then was in a.mapping.value.outputs && now == a.mapping.value.outputs[was]
    else now == was && (r(a.op).Some? ==> exists p :: p in r(a.op).value.outputs && p.name == was)
  }

  /** f is e with the ports at the replaced node moved, and everything else as it was. */
  predicate IsMoved(r: Resolver, a: Action, e: EdgeSpec, f: EdgeSpec)
    requires a.ReplaceNodeAction?
  {
    && f.id == e.id && f.queue == e.queue && f.sync == e.sync && f.feedback == e.feedback
    && f.from.node == e.from.node && f.to.node == e.to.node
    && (if e.to.node == a.target then LandsIn(r, a, e.to.port, f.to.port) else f.to.port == e.to.port)
    && (if e.from.node == a.target then LandsOut(r, a, e.from.port, f.from.port) else f.from.port == e.from.port)
  }

  lemma {:induction false} RemapMoves(r: Resolver, a: Action, e: EdgeSpec, f: EdgeSpec)
    requires a.ReplaceNodeAction?
    ensures Remap(r, a, e) == Some(f) <==> IsMoved(r, a, e, f)
  {
    MapMoves(r, a, e.to.port, f.to.port);
    MapMoves(r, a, e.from.port, f.from.port);
    if IsMoved(r, a, e, f) {
      assert f == e.(from := f.from, to := f.to);
      assert f.from == PortRef(e.from.node, f.from.port) && f.to == PortRef(e.to.node, f.to.port);
    }
  }

  lemma {:induction false} MapMoves(r: Resolver, a: Action, was: string, now: string)
    requires a.ReplaceNodeAction?
    ensures MapPort(r, a, true, was) == Some(now) <==> LandsIn(r, a, was, now)
    ensures MapPort(r, a, false, was) == Some(now) <==> LandsOut(r, a, was, now)
  {
  }

  /** The incident edges, moved. */
  ghost predicate AllMoved(r: Resolver, a: Action, g: Graph, m: map<Id, EdgeSpec>)
    requires a.ReplaceNodeAction?
  {
    && (forall e :: e in m <==> e in g.edges && (g.edges[e].from.node == a.target || g.edges[e].to.node == a.target))
    && forall e :: e in m ==> IsMoved(r, a, g.edges[e], m[e])
  }

  lemma {:induction false} RemappedIsMoved(r: Resolver, a: Action, g: Graph)
    requires a.ReplaceNodeAction?
    ensures CanRemap(r, g, a) <==> exists m :: AllMoved(r, a, g, m)
    ensures CanRemap(r, g, a) ==> AllMoved(r, a, g, Remapped(r, g, a))
    ensures forall m :: AllMoved(r, a, g, m) && CanRemap(r, g, a) ==> m == Remapped(r, g, a)
  {
    if CanRemap(r, g, a) {
      var m := Remapped(r, g, a);
      forall e | e in m ensures IsMoved(r, a, g.edges[e], m[e]) {
        RemapMoves(r, a, g.edges[e], m[e]);
      }
      assert AllMoved(r, a, g, m);
    }
    forall m | AllMoved(r, a, g, m) ensures CanRemap(r, g, a) && m == Remapped(r, g, a) {
      forall e | e in Incident(g, a.target) ensures Remap(r, a, g.edges[e]) == Some(m[e]) {
        RemapMoves(r, a, g.edges[e], m[e]);
      }
    }
  }

  /** h is g with another operator at the target and its edges moved. */
  ghost predicate IsReplaced(r: Resolver, a: Action, g: Graph, h: Graph)
    requires a.ReplaceNodeAction?
  {
    && a.target in g.nodes && h.nodes == g.nodes[a.target := g.nodes[a.target].(op := a.op, options := a.options)]
    && h.edges.Keys == g.edges.Keys
    && forall e :: e in g.edges ==>
         if g.edges[e].from.node == a.target || g.edges[e].to.node == a.target
         then IsMoved(r, a, g.edges[e], h.edges[e]) else h.edges[e] == g.edges[e]
  }

  /** Two graphs a replacement may lead to are the same. */
  lemma {:induction false} ReplacedOnce(r: Resolver, a: Action, g: Graph, h: Graph, k: Graph)
    requires a.ReplaceNodeAction? && IsReplaced(r, a, g, h) && IsReplaced(r, a, g, k)
    ensures h == k
  {
    forall e | e in g.edges ensures h.edges[e] == k.edges[e] {
      if g.edges[e].from.node == a.target || g.edges[e].to.node == a.target {
        RemapMoves(r, a, g.edges[e], h.edges[e]);
        RemapMoves(r, a, g.edges[e], k.edges[e]);
      }
    }
  }

  /** The graph a replacement adds the moved edges to. */
  ghost function WithoutEdges(a: Action, g: Graph): Graph
    requires a.ReplaceNodeAction? && a.target in g.nodes
  {
    Graph((g.nodes - {a.target})[a.target := g.nodes[a.target].(op := a.op, options := a.options)],
          g.edges - Incident(g, a.target))
  }

  lemma {:induction false} MovedFit(r: Resolver, a: Action, g: Graph, h: Graph, m: map<Id, EdgeSpec>)
    requires a.ReplaceNodeAction? && IsReplaced(r, a, g, h) && WellFormed(h)
    requires m.Keys == Incident(g, a.target) && forall e :: e in m ==> m[e] == h.edges[e]
    ensures CanAddEdgeSet(WithoutEdges(a, g), m)
  {
    var rest := WithoutEdges(a, g);
    assert rest.nodes == h.nodes;
    assert forall f :: f in rest.edges ==> f in h.edges && h.edges[f] == rest.edges[f] && f !in m;
    forall e | e in m ensures m[e].id == e && CanAddEdge(rest, m[e]) {
      assert e in h.edges && h.edges[e] == m[e] && EdgeOk(h.edges[e]);
      forall f | f in rest.edges ensures !SamePair(rest.edges[f], m[e]) {
        assert f != e;
      }
    }
    assert PairsUnique(m);
  }

  lemma {:induction false} ReplaceUnfold(r: Resolver, c: Candidate, a: Action, policy: RemovePolicy)
    requires a.ReplaceNodeAction? && WellFormed(c.graph) && a.target in c.graph.nodes && CanRemap(r, c.graph, a)
    requires NodeOk(c.graph.nodes[a.target].(op := a.op, options := a.options))
    ensures ReplaceNode(r, c, a, policy).Some? <==> CanAddEdgeSet(WithoutEdges(a, c.graph), Remapped(r, c.graph, a))
    ensures ReplaceNode(r, c, a, policy).Some? ==>
              ReplaceNode(r, c, a, policy).value.graph ==
              Graph(WithoutEdges(a, c.graph).nodes, WithoutEdges(a, c.graph).edges + Remapped(r, c.graph, a))
  {
    var replacement := c.graph.nodes[a.target].(op := a.op, options := a.options);
    var d := RemoveNodeTracked(c, a.target, policy).value;
    assert replacement.id == a.target && a.target !in d.graph.nodes;
    var e := AddNodeTracked(d, replacement).value;
    assert e.graph == WithoutEdges(a, c.graph);
  }

  lemma {:induction false} ReplaceableGraph(r: Resolver, c: Candidate, a: Action, policy: RemovePolicy, h: Graph)
    requires a.ReplaceNodeAction? && WellFormed(c.graph) && IsReplaced(r, a, c.graph, h) && WellFormed(h)
    ensures ReplaceNode(r, c, a, policy).Some?
  {
    var g := c.graph;
    var m := map e | e in Incident(g, a.target) :: h.edges[e];
    assert AllMoved(r, a, g, m);
    RemappedIsMoved(r, a, g);
    assert h.nodes[a.target] == g.nodes[a.target].(op := a.op, options := a.options);
    MovedFit(r, a, g, h, m);
    ReplaceUnfold(r, c, a, policy);
  }

  lemma {:induction false} ReplacedGraph(r: Resolver, c: Candidate, a: Action, policy: RemovePolicy)
    requires a.ReplaceNodeAction? && WellFormed(c.graph) && ReplaceNode(r, c, a, policy).Some?
    ensures IsReplaced(r, a, c.graph, ReplaceNode(r, c, a, policy).value.graph)
  {
    RemappedIsMoved(r, a, c.graph);
    ReplaceUnfold(r, c, a, policy);
    MovedIsReplaced(r, a, c.graph, Remapped(r, c.graph, a));
  }

  lemma {:induction false} MovedIsReplaced(r: Resolver, a: Action, g: Graph, m: map<Id, EdgeSpec>)
    requires a.ReplaceNodeAction? && a.target in g.nodes && AllMoved(r, a, g, m)
    ensures IsReplaced(r, a, g, Graph(WithoutEdges(a, g).nodes, WithoutEdges(a, g).edges + m))
  {
    var h := Graph(WithoutEdges(a, g).nodes, WithoutEdges(a, g).edges + m);
    assert h.nodes == g.nodes[a.target := g.nodes[a.target].(op := a.op, options := a.options)];
    assert m.Keys == Incident(g, a.target);
    assert h.edges.Keys == g.edges.Keys;
  }

  /**
   * A replacement succeeds exactly when the target exists and the graph with
   * the new operator and the moved edges is there and well formed; that graph is
   * then the result, and there is only one.
   */
  lemma {:induction false} ReplaceNodeIff(r: Resolver, c: Candidate, a: Action, policy: RemovePolicy)
    requires a.ReplaceNodeAction? && WellFormed(c.graph)
    ensures ReplaceNode(r, c, a, policy).Some? <==> exists h :: IsReplaced(r, a, c.graph, h) && WellFormed(h)
    ensures ReplaceNode(r, c, a, policy).Some? ==> IsReplaced(r, a, c.graph, ReplaceNode(r, c, a, policy).value.graph)
    ensures forall h :: ReplaceNode(r, c, a, policy).Some? && IsReplaced(r, a, c.graph, h) ==>
              h == ReplaceNode(r, c, a, policy).value.graph
  {
    if ReplaceNode(r, c, a, policy).Some? {
      ReplacedGraph(r, c, a, policy);
      ReplacedWellFormed(r, c, a, policy);
      forall h | IsReplaced(r, a, c.graph, h) ensures h == ReplaceNode(r, c, a, policy).value.graph {
        ReplacedOnce(r, a, c.graph, h, ReplaceNode(r, c, a, policy).value.graph);
      }
    }
    if h :| IsReplaced(r, a, c.graph, h) && WellFormed(h) {
      ReplaceableGraph(r, c, a, policy, h);
    }
  }

  lemma {:induction false} ReplacedWellFormed(r: Resolver, c: Candidate, a: Action, policy: RemovePolicy)
    requires a.ReplaceNodeAction? && WellFormed(c.graph) && ReplaceNode(r, c, a, policy).Some?
    ensures WellFormed(ReplaceNode(r, c, a, policy).value.graph)
  {
    var d := RemoveNodeTracked(c, a.target, policy).value;
    RemoveNodeWellFormed(c.graph, a.target);
    var replacement := c.graph.nodes[a.target].(op := a.op, options := a.options);
    AddNodeWellFormed(d.graph, replacement);
    var e := AddNodeTracked(d, replacement).value;
    ChangeSets.AddEdgeSetWellFormed(e.graph, Remapped(r, c.graph, a));
  }

  /** Every port in use at the target can land somewhere. */
  predicate PortsLand(r: Resolver, a: Action, g: Graph)
    requires a.ReplaceNodeAction?
  {
    forall e :: e in g.edges ==>
      && (g.edges[e].to.node == a.target ==>
            if a.mapping.Some? then g.edges[e].to.port in a.mapping.value.inputs
            else r(a.op).Some? ==> exists p :: p in r(a.op).value.inputs && p.name == g.edges[e].to.port)
      && (g.edges[e].from.node == a.target ==>
            if a.mapping.Some? then g.edges[e].from.port in a.mapping.value.outputs
            else r(a.op).Some? ==> exists p :: p in r(a.op).value.outputs && p.name == g.edges[e].from.port)
  }

  /** A mapping or a declaration is needed for every connected port, inputs among inputs and outputs among outputs. */
  lemma {:induction false} ReplaceNodeNeedsPorts(r: Resolver, c: Candidate, a: Action, policy: RemovePolicy)
    requires a.ReplaceNodeAction? && WellFormed(c.graph)
    ensures ReplaceNode(r, c, a, policy).Some? ==> a.target in c.graph.nodes && PortsLand(r, a, c.graph)
    ensures a.target in c.graph.nodes && PortsLand(r, a, c.graph) ==> exists h :: IsReplaced(r, a, c.graph, h)
  {
    var g := c.graph;
    if ReplaceNode(r, c, a, policy).Some? {
      ReplacedGraph(r, c, a, policy);
      var h := ReplaceNode(r, c, a, policy).value.graph;
      forall e | e in g.edges ensures
          && (g.edges[e].to.node == a.target ==> LandsIn(r, a, g.edges[e].to.port, h.edges[e].to.port))
          && (g.edges[e].from.node == a.target ==> LandsOut(r, a, g.edges[e].from.port, h.edges[e].from.port)) {
      }
    }
    if a.target in g.nodes && PortsLand(r, a, g) {
      var h := MovedGraph(r, a, g);
    }
  }

  lemma {:induction false} MovedGraph(r: Resolver, a: Action, g: Graph) returns (h: Graph)
    requires a.ReplaceNodeAction? && a.target in g.nodes && PortsLand(r, a, g)
    ensures IsReplaced(r, a, g, h)
  {
    forall e | e in Incident(g, a.target) ensures Remap(r, a, g.edges[e]).Some? {
      var f := g.edges[e];
      MapMoves(r, a, f.to.port,
               if f.to.node == a.target && a.mapping.Some? then a.mapping.value.inputs[f.to.port] else f.to.port);
      MapMoves(r, a, f.from.port,
               if f.from.node == a.target && a.mapping.Some? then a.mapping.value.outputs[f.from.port] else f.from.port);
    }
    RemappedIsMoved(r, a, g);
    var m := Remapped(r, g, a);
    h := Graph(g.nodes[a.target := g.nodes[a.target].(op := a.op, options := a.options)], g.edges + m);
  }

  /**
   * An edge that carries the id derived from its ends cannot be moved to
   * another port: the id it keeps is then neither derived nor a stable one.
   */
  lemma {:induction false} DerivedIdsCannotMove(r: Resolver, c: Candidate, a: Action, policy: RemovePolicy, e: Id)
    requires a.ReplaceNodeAction? && WellFormed(c.graph) && a.mapping.Some? && e in c.graph.edges
    requires c.graph.edges[e].to.node == a.target != c.graph.edges[e].from.node
    requires e == DeriveEdgeId(c.graph.edges[e].from, c.graph.edges[e].to)
    requires c.graph.edges[e].to.port in a.mapping.value.inputs
    requires a.mapping.value.inputs[c.graph.edges[e].to.port] != c.graph.edges[e].to.port
    ensures ReplaceNode(r, c, a, policy).None?
  {
    if ReplaceNode(r, c, a, policy).Some? {
      ReplacedGraph(r, c, a, policy);
      ReplacedWellFormed(r, c, a, policy);
      var was, now := c.graph.edges[e], ReplaceNode(r, c, a, policy).value.graph.edges[e];
      assert EdgeOk(now) && now.id == e && now.from == was.from;
      ArrowIsNoIdChar(was.from, was.to);
      SamePrefix(was.from.node + "." + was.from.port + "->" + was.to.node + ".", was.to.port, now.to.port);
      assert false;
    }
  }

  lemma {:induction false} ArrowIsNoIdChar(from: PortRef, to: PortRef)
    ensures !IsValidStableId(DeriveEdgeId(from, to))
  {
    var id, k := DeriveEdgeId(from, to), |from.node| + 1 + |from.port| + 1;
    assert id[k] == '>';
    assert !IsIdChar('>');
  }

  lemma {:induction false} SamePrefix(s: string, t: string, u: string)
    requires s + t == s + u
    ensures t == u
  {
    assert (s + t)[|s|..] == t && (s + u)[|s|..] == u;
  }

  // -------------------------------------------------------------------------
  // remove_chain with bypass

  /** h is g without the chain, and with one edge from where it was fed to where it fed. */
  ghost predicate IsBypassed(g: Graph, chain: seq<Id>, i: EdgeSpec, o: EdgeSpec, h: Graph) {
    var id := i.from.node + "." + i.from.port + "->" + o.to.node + "." + o.to.port;
    && h.nodes == g.nodes - Elements(chain)
    && id !in GraphWithout(g, Elements(chain)).edges
    && h.edges == GraphWithout(g, Elements(chain)).edges[
         id := EdgeSpec(id, i.from, o.to, o.queue, o.sync, i.feedback || o.feedback)]
  }

  lemma {:induction false} BypassEffect(c: Candidate, chain: seq<Id>, policy: RemovePolicy, i: Id, o: Id)
    requires IsLinearChain(c.graph, chain, i, o)
    ensures RemoveChain(c, chain, Bypass, policy).Some? ==>
              IsBypassed(c.graph, chain, c.graph.edges[i], c.graph.edges[o],
                         RemoveChain(c, chain, Bypass, policy).value.graph)
  {
    BypassAt(c, chain, policy, i, o);
    RemoveNodesClosed(c, chain, policy);
  }

  /**
   * A bypass succeeds exactly when the nodes form a linear chain and the graph
   * with the one edge in its place is well formed; that edge has the ends of the
   * boundary, the queue and policy of the edge out, and is a feedback edge if
   * either was.
   */
  lemma {:induction false} BypassIff(c: Candidate, chain: seq<Id>, policy: RemovePolicy)
    requires WellFormed(c.graph)
    ensures RemoveChain(c, chain, Bypass, policy).Some? <==>
            exists i, o, h :: IsLinearChain(c.graph, chain, i, o) && WellFormed(h)
                              && IsBypassed(c.graph, chain, c.graph.edges[i], c.graph.edges[o], h)
  {
    if RemoveChain(c, chain, Bypass, policy).Some? {
      var i, o :| IsLinearChain(c.graph, chain, i, o);
      BypassEffect(c, chain, policy, i, o);
      BypassedWellFormed(c, chain, policy, i, o);
    }
    if i, o, h :| IsLinearChain(c.graph, chain, i, o) && WellFormed(h)
                  && IsBypassed(c.graph, chain, c.graph.edges[i], c.graph.edges[o], h) {
      CanBypass(c, chain, policy, i, o, h);
    }
  }

  lemma {:induction false} WithoutWellFormed(g: Graph, sel: set<Id>)
    requires WellFormed(g)
    ensures WellFormed(GraphWithout(g, sel))
  {
    forall e | e in GraphWithout(g, sel).edges
      ensures g.edges[e].from.node in g.nodes - sel && g.edges[e].to.node in g.nodes - sel
    {
      assert e !in IncidentTo(g, sel);
    }
  }

  lemma {:induction false} BypassedWellFormed(c: Candidate, chain: seq<Id>, policy: RemovePolicy, i: Id, o: Id)
    requires WellFormed(c.graph) && IsLinearChain(c.graph, chain, i, o) && RemoveChain(c, chain, Bypass, policy).Some?
    ensures WellFormed(RemoveChain(c, chain, Bypass, policy).value.graph)
  {
    BypassAt(c, chain, policy, i, o);
    RemoveNodesClosed(c, chain, policy);
    var d := RemoveNodesTracked(c, chain, policy).value;
    WithoutWellFormed(c.graph, Elements(chain));
    AddEdgeWellFormed(d.graph, BypassEdge(c.graph.edges[i], c.graph.edges[o]));
  }

  lemma {:induction false} CanBypass(c: Candidate, chain: seq<Id>, policy: RemovePolicy, i: Id, o: Id, h: Graph)
    requires WellFormed(c.graph) && IsLinearChain(c.graph, chain, i, o) && WellFormed(h)
    requires IsBypassed(c.graph, chain, c.graph.edges[i], c.graph.edges[o], h)
    ensures RemoveChain(c, chain, Bypass, policy).Some?
  {
    BypassAt(c, chain, policy, i, o);
    RemoveNodesClosed(c, chain, policy);
    var d, e := RemoveNodesTracked(c, chain, policy).value.graph, BypassEdge(c.graph.edges[i], c.graph.edges[o]);
    WithoutWellFormed(c.graph, Elements(chain));
    AddEdgeIff(d, e);
    assert h == Graph(d.nodes, d.edges[WithId(e).id := WithId(e)]);
  }

  // -------------------------------------------------------------------------
  // insert_chain

  predicate OnlyRequired(ports: seq<PortCapability>, port: string) {
    exists i :: 0 <= i < |ports| && ports[i].required && ports[i].name == port
                && forall j :: 0 <= j < |ports| && ports[j].required ==> j == i
  }

  /** The port an edge into a chain node is put on when none is given: the only required one, else the only one. */
  predicate ImpliedInput(ports: seq<PortCapability>, port: string) {
    || OnlyRequired(ports, port)
    || (|ports| == 1 && !ports[0].required && ports[0].name == port)
  }

  predicate ImpliedOutput(ports: seq<PortCapability>, port: string) {
    |ports| == 1 && ports[0].name == port
  }

  lemma {:induction false} OnlyRequiredStep(ports: seq<PortCapability>, port: string)
    requires ports != []
    ensures OnlyRequired(ports, port) <==>
              if ports[0].required then ports[0].name == port && forall j :: 0 <= j < |ports[1..]| ==> !ports[1..][j].required
              else OnlyRequired(ports[1..], port)
  {
    var rest := ports[1..];
    if OnlyRequired(ports, port) && !ports[0].required {
      var i :| 0 <= i < |ports| && ports[i].required && ports[i].name == port
               && forall j :: 0 <= j < |ports| && ports[j].required ==> j == i;
      assert rest[i - 1] == ports[i];
      assert forall j :: 0 <= j < |rest| && rest[j].required ==> ports[j + 1].required;
    }
    if !ports[0].required && OnlyRequired(rest, port) {
      var i :| 0 <= i < |rest| && rest[i].required && rest[i].name == port
               && forall j :: 0 <= j < |rest| && rest[j].required ==> j == i;
      assert ports[i + 1] == rest[i];
      assert forall j :: 0 < j < |ports| && ports[j].required ==> rest[j - 1].required;
    }
    if ports[0].required && OnlyRequired(ports, port) {
      assert forall j :: 0 <= j < |rest| ==> rest[j] == ports[j + 1];
    }
    if ports[0].required && ports[0].name == port && forall j :: 0 <= j < |rest| ==> !rest[j].required {
      assert forall j :: 0 < j < |ports| ==> ports[j] == rest[j - 1];
    }
  }

  lemma {:induction false} NoneRequired(ports: seq<PortCapability>)
    ensures RequiredNames(ports) == [] <==> forall j :: 0 <= j < |ports| ==> !ports[j].required
  {
    if ports != [] {
      NoneRequired(ports[1..]);
      assert forall j :: 0 < j < |ports| ==> ports[j] == ports[1..][j - 1];
    }
  }

  lemma {:induction false} OneRequired(ports: seq<PortCapability>, port: string)
    ensures RequiredNames(ports) == [port] <==> OnlyRequired(ports, port)
  {
    if ports != [] {
      var rest := ports[1..];
      OnlyRequiredStep(ports, port);
      OneRequired(rest, port);
      NoneRequired(rest);
      if ports[0].required {
        assert RequiredNames(ports) == [ports[0].name] + RequiredNames(rest);
        assert RequiredNames(ports) == [port] ==> |RequiredNames(rest)| == 0;
      } else {
        assert RequiredNames(ports) == RequiredNames(rest);
      }
    }
  }

  lemma {:induction false} UniquePortIff(cap: Option<Capability>, port: string)
    ensures UniquePort(cap, true) == Some(port) <==> cap.Some? && ImpliedInput(cap.value.inputs, port)
    ensures UniquePort(cap, false) == Some(port) <==> cap.Some? && ImpliedOutput(cap.value.outputs, port)
  {
    if cap.Some? {
      var ports := cap.value.inputs;
      NoneRequired(ports);
      OneRequired(ports, port);
      var names := RequiredNames(ports);
      assert |names| == 1 ==> (names == [port] <==> names[0] == port);
      assert names != [] ==> exists j :: 0 <= j < |ports| && ports[j].required;
    }
  }

  /** The input port of the k-th node of the chain. */
  predicate IsChainInput(r: Resolver, a: Action, k: nat, port: string)
    requires a.InsertChainAction? && k < |a.chain|
  {
    if k == 0 && a.chainInput.Some? then port == a.chainInput.value
    else r(a.chain[k].op).Some? && ImpliedInput(r(a.chain[k].op).value.inputs, port)
  }

  predicate IsChainOutput(r: Resolver, a: Action, k: nat, port: string)
    requires a.InsertChainAction? && k < |a.chain|
  {
    if k == |a.chain| - 1 && a.chainOutput.Some? then port == a.chainOutput.value
    else r(a.chain[k].op).Some? && ImpliedOutput(r(a.chain[k].op).value.outputs, port)
  }

  lemma {:induction false} NodePortsIff(r: Resolver, a: Action, k: nat, input: string, output: string)
    requires a.InsertChainAction? && k < |a.chain|
    ensures NodePorts(r, a, k) == Some(Ports(input, output)) <==>
            IsChainInput(r, a, k, input) && IsChainOutput(r, a, k, output)
  {
    UniquePortIff(r(a.chain[k].op), input);
    UniquePortIff(r(a.chain[k].op), output);
  }

  /** The k-th edge along the inserted chain, from the old source to the old destination. */
  predicate IsLink(a: Action, split: EdgeSpec, ps: seq<Ports>, k: nat, e: EdgeSpec)
    requires a.InsertChainAction? && |ps| == |a.chain| > 0 && k <= |a.chain|
  {
    var n := |a.chain|;
    && e.from == (if k == 0 then split.from else PortRef(a.chain[k - 1].id, ps[k - 1].output))
    && e.to == (if k == n then split.to else PortRef(a.chain[k].id, ps[k].input))
    && e.queue == split.queue
    && e.sync == (if 0 < k < n then None else split.sync)
    && e.feedback == (if 0 < k < n then false else split.feedback)
    && e.id == e.from.node + "." + e.from.port + "->" + e.to.node + "." + e.to.port
  }

  ghost predicate NodesInserted(a: Action, g: Graph, h: Graph)
    requires a.InsertChainAction?
  {
    && (forall i, j :: 0 <= i < j < |a.chain| ==> a.chain[i].id != a.chain[j].id)
    && (forall n :: n in h.nodes <==> n in g.nodes || exists k :: 0 <= k < |a.chain| && a.chain[k].id == n)
    && (forall n :: n in g.nodes ==> n in h.nodes && h.nodes[n] == g.nodes[n])
    && (forall k :: 0 <= k < |a.chain| ==>
          a.chain[k].id !in g.nodes && a.chain[k].id in h.nodes && h.nodes[a.chain[k].id] == a.chain[k])
  }

  ghost predicate LinksInserted(a: Action, g: Graph, h: Graph, links: seq<EdgeSpec>)
    requires a.InsertChainAction?
  {
    && (forall i, j :: 0 <= i < j < |links| ==> links[i].id != links[j].id)
    && (forall k :: 0 <= k < |links| ==> links[k].id !in g.edges || links[k].id == a.edge)
    && (forall e :: e in h.edges <==> (e in g.edges && e != a.edge) || exists k :: 0 <= k < |links| && links[k].id == e)
    && (forall e :: e in g.edges && e != a.edge ==> e in h.edges && h.edges[e] == g.edges[e])
    && (forall k :: 0 <= k < |links| ==> links[k].id in h.edges && h.edges[links[k].id] == links[k])
  }

  /** h is g with the edge split by the chain. */
  ghost predicate IsInserted(r: Resolver, a: Action, g: Graph, h: Graph, ps: seq<Ports>, links: seq<EdgeSpec>)
    requires a.InsertChainAction?
  {
    && a.edge in g.edges && |ps| == |a.chain| > 0 && |links| == |a.chain| + 1
    && (forall k :: 0 <= k < |ps| ==> IsChainInput(r, a, k, ps[k].input) && IsChainOutput(r, a, k, ps[k].output))
    && (forall k :: 0 <= k < |links| ==> IsLink(a, g.edges[a.edge], ps, k, links[k]))
    && NodesInserted(a, g, h) && LinksInserted(a, g, h, links)
  }

  lemma {:induction false} LinkIs(a: Action, split: EdgeSpec, ps: seq<Ports>, k: nat)
    requires a.InsertChainAction? && |ps| == |a.chain| > 0 && k <= |a.chain|
    ensures IsLink(a, split, ps, k, WithId(SplitEdge(split, a.chain, ps, k)))
  {
  }

  lemma {:induction false} PortsResolved(r: Resolver, a: Action)
    requires a.InsertChainAction? && PortsResolve(r, a)
    ensures forall k :: 0 <= k < |a.chain| ==>
              IsChainInput(r, a, k, ResolvedPorts(r, a)[k].input) && IsChainOutput(r, a, k, ResolvedPorts(r, a)[k].output)
  {
    var ps := ResolvedPorts(r, a);
    forall k | 0 <= k < |ps| ensures IsChainInput(r, a, k, ps[k].input) && IsChainOutput(r, a, k, ps[k].output) {
      NodePortsIff(r, a, k, ps[k].input, ps[k].output);
    }
  }

  function Links(a: Action, split: EdgeSpec, ps: seq<Ports>): (links: seq<EdgeSpec>)
    requires a.InsertChainAction? && |ps| == |a.chain| > 0
    ensures |links| == |a.chain| + 1
    ensures forall k :: 0 <= k < |links| ==> links[k] == WithId(SplitEdges(split, a.chain, ps)[k])
  {
    var es := SplitEdges(split, a.chain, ps);
    seq(|es|, k requires 0 <= k < |es| => WithId(es[k]))
  }

  lemma {:induction false} LinksAre(a: Action, split: EdgeSpec, ps: seq<Ports>)
    requires a.InsertChainAction? && |ps| == |a.chain| > 0
    ensures forall k :: 0 <= k <= |a.chain| ==> IsLink(a, split, ps, k, Links(a, split, ps)[k])
  {
    forall k | 0 <= k <= |a.chain| ensures IsLink(a, split, ps, k, Links(a, split, ps)[k]) {
      LinkIs(a, split, ps, k);
    }
  }

  /** An inserted chain hangs between the two ends of the edge it splits, on the ports given or implied. */
  lemma {:induction false} InsertChainEffect(r: Resolver, c: Candidate, a: Action)
    returns (ps: seq<Ports>, links: seq<EdgeSpec>)
    requires a.InsertChainAction? && InsertChain(r, c, a).Some?
    ensures IsInserted(r, a, c.graph, InsertChain(r, c, a).value.graph, ps, links)
  {
    var split := c.graph.edges[a.edge];
    ps := ResolvedPorts(r, a);
    links := Links(a, split, ps);
    PortsResolved(r, a);
    LinksAre(a, split, ps);
    var c1 := RemoveEdgesTracked(c, {a.edge});
    var d, es := AddNodesTracked(c1, a.chain).value, SplitEdges(split, a.chain, ps);
    AddNodesClosed(c1, a.chain);
    AddEdgesClosed(d, es);
    InsertedNodes(c, a, d);
    InsertedEdges(d, es, links, AddEdgesTracked(d, es).value);
    assert InsertChain(r, c, a) == AddEdgesTracked(d, es);
    InsertedParts(c, a, d, links, AddEdgesTracked(d, es).value);
  }

  lemma {:induction false} InsertedParts(c: Candidate, a: Action, d: Candidate, links: seq<EdgeSpec>, e: Candidate)
    requires a.InsertChainAction? && a.edge in c.graph.edges && NodesInserted(a, c.graph, d.graph)
    requires d.graph.edges == c.graph.edges - {a.edge} && e.graph.nodes == d.graph.nodes
    requires LinksAdded(d.graph, links, e.graph)
    ensures NodesInserted(a, c.graph, e.graph) && LinksInserted(a, c.graph, e.graph, links)
  {
  }

  ghost predicate LinksAdded(g: Graph, links: seq<EdgeSpec>, h: Graph) {
    && (forall i, j :: 0 <= i < j < |links| ==> links[i].id != links[j].id)
    && (forall k :: 0 <= k < |links| ==> links[k].id !in g.edges)
    && (forall e :: e in h.edges <==> e in g.edges || exists k :: 0 <= k < |links| && links[k].id == e)
    && (forall e :: e in g.edges ==> e in h.edges && h.edges[e] == g.edges[e])
    && (forall k :: 0 <= k < |links| ==> links[k].id in h.edges && h.edges[links[k].id] == links[k])
  }

  lemma {:induction false} InsertedNodes(c: Candidate, a: Action, d: Candidate)
    requires a.InsertChainAction? && a.edge in c.graph.edges
    requires IsWithNodes(RemoveEdgesTracked(c, {a.edge}), NodeIds(a.chain), d) && HasNodes(d.graph, a.chain)
    ensures NodesInserted(a, c.graph, d.graph)
  {
    var ids := NodeIds(a.chain);
    forall i, j | 0 <= i < j < |a.chain| ensures a.chain[i].id != a.chain[j].id {
      assert ids[i] != ids[j];
    }
    forall k | 0 <= k < |a.chain| ensures a.chain[k].id in Elements(ids) {
      assert ids[k] == a.chain[k].id;
    }
    forall n | n in c.graph.nodes ensures n in d.graph.nodes && d.graph.nodes[n] == c.graph.nodes[n] {
      assert n in (d.graph.nodes - Elements(ids)).Keys;
    }
    forall n | n in Elements(ids) ensures exists k :: 0 <= k < |a.chain| && a.chain[k].id == n {
      var k :| 0 <= k < |ids| && ids[k] == n;
      assert a.chain[k].id == n;
    }
  }

  lemma {:induction false} InsertedEdges(c: Candidate, es: seq<EdgeSpec>, links: seq<EdgeSpec>, d: Candidate)
    requires IsWithEdges(c, es, d) && |links| == |es| && forall k :: 0 <= k < |es| ==> links[k] == WithId(es[k])
    ensures LinksAdded(c.graph, links, d.graph)
  {
    var ids := EdgeIds(es);
    forall i, j | 0 <= i < j < |links| ensures links[i].id != links[j].id {
      assert ids[i] != ids[j];
    }
    forall e | e in c.graph.edges ensures e in d.graph.edges && d.graph.edges[e] == c.graph.edges[e] {
      assert e in (d.graph.edges - Elements(ids)).Keys;
    }
    forall e | e in Elements(ids) ensures exists k :: 0 <= k < |links| && links[k].id == e {
      var k :| 0 <= k < |ids| && ids[k] == e;
      assert links[k].id == e;
    }
    forall k | 0 <= k < |links| ensures links[k].id in Elements(ids) {
      assert ids[k] == links[k].id;
    }
  }

  lemma {:induction false} PortsAgree(r: Resolver, a: Action, ps: seq<Ports>)
    requires a.InsertChainAction? && |ps| == |a.chain|
    requires forall k :: 0 <= k < |ps| ==> IsChainInput(r, a, k, ps[k].input) && IsChainOutput(r, a, k, ps[k].output)
    ensures PortsResolve(r, a) && ResolvedPorts(r, a) == ps
  {
    forall k | 0 <= k < |ps| ensures NodePorts(r, a, k) == Some(ps[k]) {
      NodePortsIff(r, a, k, ps[k].input, ps[k].output);
    }
  }

  lemma {:induction false} LinkIsOnly(a: Action, split: EdgeSpec, ps: seq<Ports>, k: nat, e: EdgeSpec)
    requires a.InsertChainAction? && |ps| == |a.chain| > 0 && k <= |a.chain| && IsLink(a, split, ps, k, e)
    ensures e == Links(a, split, ps)[k]
  {
    LinkIs(a, split, ps, k);
  }

  /** The links of a well-formed result fit the graph with the nodes. */
  lemma {:induction false} LinksFit(a: Action, g: Graph, d: Graph, h: Graph, es: seq<EdgeSpec>, links: seq<EdgeSpec>)
    requires a.InsertChainAction? && a.edge in g.edges && LinksInserted(a, g, h, links) && WellFormed(h)
    requires d.nodes == h.nodes && d.edges == g.edges - {a.edge}
    requires |es| == |links| && forall k :: 0 <= k < |es| ==> WithId(es[k]) == links[k]
    ensures FitTogether(d, es)
  {
    forall k | 0 <= k < |es| ensures CanAddEdge(d, WithId(es[k])) {
      var e := links[k];
      assert e.id in h.edges && h.edges[e.id] == e;
      forall f | f in d.edges ensures !SamePair(d.edges[f], e) {
        assert f in h.edges && h.edges[f] == d.edges[f] && f != e.id;
      }
    }
    forall k, l | 0 <= k < l < |es| ensures NoClash(WithId(es[k]), WithId(es[l])) {
      assert h.edges[links[k].id] == links[k] && h.edges[links[l].id] == links[l];
    }
  }

  lemma {:induction false} NodesFitIn(c: Candidate, a: Action, h: Graph)
    requires a.InsertChainAction? && NodesInserted(a, c.graph, h) && WellFormed(h)
    ensures AddNodesTracked(c, a.chain).Some?
    ensures AddNodesTracked(c, a.chain).value.graph == Graph(h.nodes, c.graph.edges)
  {
    var ids := NodeIds(a.chain);
    forall k | 0 <= k < |a.chain| ensures NodeOk(a.chain[k]) {
      assert h.nodes[a.chain[k].id] == a.chain[k];
    }
    assert NoRepeats(ids);
    forall n | n in Elements(ids) ensures n !in c.graph.nodes {
      var k :| 0 <= k < |ids| && ids[k] == n;
      assert a.chain[k].id == n;
    }
    AddNodesIff(c, a.chain);
    AddNodesClosed(c, a.chain);
    SameNodesInserted(c, a, AddNodesTracked(c, a.chain).value, h);
  }

  lemma {:induction false} SameNodesInserted(c: Candidate, a: Action, d: Candidate, h: Graph)
    requires a.InsertChainAction? && NodesInserted(a, c.graph, h)
    requires IsWithNodes(c, NodeIds(a.chain), d) && HasNodes(d.graph, a.chain)
    ensures d.graph.nodes == h.nodes
  {
    var ids := NodeIds(a.chain);
    forall n ensures n in d.graph.nodes <==> n in h.nodes {
      assert n in d.graph.nodes.Keys <==> n in c.graph.nodes.Keys || n in Elements(ids);
      assert n in Elements(ids) <==> exists k :: 0 <= k < |ids| && ids[k] == n;
      assert forall k :: 0 <= k < |ids| ==> ids[k] == a.chain[k].id;
    }
    forall n | n in h.nodes ensures d.graph.nodes[n] == h.nodes[n] {
      if n in c.graph.nodes {
        assert n in (d.graph.nodes - Elements(ids)).Keys;
      } else {
        var k :| 0 <= k < |a.chain| && a.chain[k].id == n;
      }
    }
  }

  lemma {:induction false} CanInsertInto(r: Resolver, c: Candidate, a: Action, h: Graph, ps: seq<Ports>,
                                         links: seq<EdgeSpec>)
    requires a.InsertChainAction? && IsInserted(r, a, c.graph, h, ps, links) && WellFormed(h)
    ensures InsertChain(r, c, a).Some?
  {
    var g, split := c.graph, c.graph.edges[a.edge];
    var c1, es := RemoveEdgesTracked(c, {a.edge}), SplitEdges(split, a.chain, ps);
    PortsAgree(r, a, ps);
    assert NodesInserted(a, c1.graph, h);
    NodesFitIn(c1, a, h);
    var d := AddNodesTracked(c1, a.chain).value;
    forall k | 0 <= k < |es| ensures WithId(es[k]) == links[k] {
      LinkIsOnly(a, split, ps, k, links[k]);
    }
    LinksFit(a, g, d.graph, h, es, links);
    AddEdgesIff(d, es);
  }

  /**
   * Inserting a chain succeeds exactly when the graph with the chain hung in is
   * there and well formed.
   */
  lemma {:induction false} InsertChainIff(r: Resolver, c: Candidate, a: Action)
    requires a.InsertChainAction? && WellFormed(c.graph)
    ensures InsertChain(r, c, a).Some? <==>
            exists h, ps, links :: IsInserted(r, a, c.graph, h, ps, links) && WellFormed(h)
  {
    if InsertChain(r, c, a).Some? {
      var ps, links := InsertChainEffect(r, c, a);
      InsertedWellFormed(r, c, a);
    }
    if h, ps, links :| IsInserted(r, a, c.graph, h, ps, links) && WellFormed(h) {
      CanInsertInto(r, c, a, h, ps, links);
    }
  }

  lemma {:induction false} InsertedWellFormed(r: Resolver, c: Candidate, a: Action)
    requires a.InsertChainAction? && WellFormed(c.graph) && InsertChain(r, c, a).Some?
    ensures WellFormed(InsertChain(r, c, a).value.graph)
  {
    var c1 := RemoveEdgesTracked(c, {a.edge});
    RemoveEdgesWellFormed(c.graph, {a.edge});
    AddNodesIff(c1, a.chain);
    var d := AddNodesTracked(c1, a.chain).value;
    AddEdgesIff(d, SplitEdges(c.graph.edges[a.edge], a.chain, ResolvedPorts(r, a)));
  }

  // -------------------------------------------------------------------------
  // Policies and parameter updates

  /** The nodes an action takes away, a replaced one included. */
  function Takes(a: Action): set<Id> {
    match a
    case RemoveNodeAction(target, _, _) => {target}
    case RemoveChainAction(nodes, _, _) => Elements(nodes)
    case ReplaceNodeAction(target, _, _, _, _) => {target}
    case RemoveBranchAction(_, nodes, _, _) => Elements(nodes)
    case _ => {}
  }

  function OwnPolicy(a: Action): Option<RemovePolicy> {
    match a
    case RemoveNodeAction(_, _, policy) => policy
    case RemoveChainAction(_, _, policy) => policy
    case ReplaceNodeAction(_, _, _, _, policy) => policy
    case RemoveBranchAction(_, _, policy, _) => policy
    case _ => None
  }

  ghost predicate Records(a: Action, default: RemovePolicy, c: Candidate, d: Candidate) {
    && (forall n :: n in Takes(a) && n !in c.addedNodes ==>
          n in d.nodePolicy && d.nodePolicy[n] == match OwnPolicy(a) case Some(p) => p case None => default)
    && (forall n :: n !in Takes(a) || n in c.addedNodes ==>
          (n in d.nodePolicy <==> n in c.nodePolicy) && (n in c.nodePolicy ==> d.nodePolicy[n] == c.nodePolicy[n]))
    && d.parameterUpdates == c.parameterUpdates +
         if a.SetNodeOptionsAction? then [(a.target, a.parameters)] else []
  }

  lemma {:induction false} WithoutRecords(c: Candidate, sel: set<Id>, policy: RemovePolicy, d: Candidate, a: Action,
                                          default: RemovePolicy)
    requires IsWithout(c, sel, policy, d) && Takes(a) == sel && !a.SetNodeOptionsAction?
    requires policy == match OwnPolicy(a) case Some(p) => p case None => default
    ensures Records(a, default, c, d)
  {
  }

  /**
   * A node that goes is recorded under the action's own policy, else under the
   * patch's, unless the same patch had added it; the others keep what they had.
   * Only set_node_options adds a parameter update.
   */
  lemma {:induction false} PolicyRecorded(r: Resolver, c: Candidate, a: Action, default: RemovePolicy)
    requires ApplyOne(r, c, a, default).Some?
    ensures Records(a, default, c, ApplyOne(r, c, a, default).value)
  {
    var policy := match OwnPolicy(a) case Some(p) => p case None => default;
    match a
    case RemoveNodeAction(target, mode, _) =>
      assert Elements([target]) == {target};
      if mode.Bypass? {
        BypassRecords(c, [target], policy, a, default);
      } else {
        OneNode(c, target, policy);
        ListRecords(c, [target], policy, a, default);
      }
    case RemoveChainAction(nodes, mode, _) =>
      if mode.Bypass? {
        BypassRecords(c, nodes, policy, a, default);
      } else {
        ListRecords(c, nodes, policy, a, default);
      }
    case RemoveBranchAction(_, nodes, _, _) => ListRecords(c, nodes, policy, a, default);
    case ReplaceNodeAction(_, _, _, _, _) => ReplaceRecords(r, c, a, policy, default);
    case InsertChainAction(_, _, _, _) => InsertRecords(r, c, a);
    case _ =>
  }

  lemma {:induction false} ListRecords(c: Candidate, nodes: seq<Id>, policy: RemovePolicy, a: Action,
                                       default: RemovePolicy)
    requires RemoveNodesTracked(c, nodes, policy).Some? && Takes(a) == Elements(nodes) && !a.SetNodeOptionsAction?
    requires policy == match OwnPolicy(a) case Some(p) => p case None => default
    ensures Records(a, default, c, RemoveNodesTracked(c, nodes, policy).value)
  {
    RemoveNodesClosed(c, nodes, policy);
    WithoutRecords(c, Elements(nodes), policy, RemoveNodesTracked(c, nodes, policy).value, a, default);
  }

  lemma {:induction false} ReplaceRecords(r: Resolver, c: Candidate, a: Action, policy: RemovePolicy,
                                          default: RemovePolicy)
    requires a.ReplaceNodeAction? && ReplaceNode(r, c, a, policy).Some?
    requires policy == match OwnPolicy(a) case Some(p) => p case None => default
    ensures Records(a, default, c, ReplaceNode(r, c, a, policy).value)
  {
  }

  lemma {:induction false} OneNode(c: Candidate, n: Id, policy: RemovePolicy)
    ensures RemoveNodesTracked(c, [n], policy) == RemoveNodeTracked(c, n, policy)
  {
    assert [n][..0] == [];
    assert RemoveNodesTracked(c, [], policy) == Some(c);
  }

  lemma {:induction false} BypassRecords(c: Candidate, chain: seq<Id>, policy: RemovePolicy, a: Action,
                                         default: RemovePolicy)
    requires RemoveChain(c, chain, Bypass, policy).Some? && Takes(a) == Elements(chain) && !a.SetNodeOptionsAction?
    requires policy == match OwnPolicy(a) case Some(p) => p case None => default
    ensures Records(a, default, c, RemoveChain(c, chain, Bypass, policy).value)
  {
    var i, o :| IsLinearChain(c.graph, chain, i, o);
    BypassAt(c, chain, policy, i, o);
    RemoveNodesClosed(c, chain, policy);
    WithoutRecords(c, Elements(chain), policy, RemoveNodesTracked(c, chain, policy).value, a, default);
  }

  lemma {:induction false} InsertRecords(r: Resolver, c: Candidate, a: Action)
    requires a.InsertChainAction? && InsertChain(r, c, a).Some?
    ensures InsertChain(r, c, a).value.nodePolicy == c.nodePolicy
    ensures InsertChain(r, c, a).value.parameterUpdates == c.parameterUpdates
  {
    var d := AddNodesTracked(RemoveEdgesTracked(c, {a.edge}), a.chain).value;
    AddNodesClosed(RemoveEdgesTracked(c, {a.edge}), a.chain);
    AddEdgesClosed(d, SplitEdges(c.graph.edges[a.edge], a.chain, ResolvedPorts(r, a)));
  }
}
