/** The composite actions of MutationApplier and Apply itself, loop by loop. */
module MutationActions {
  import opened Wrappers
  import opened GraphModel
  import opened GraphSpecs
  import opened MutationApplier
  import M = MutationModel
  import F = ClosedForms
  import V = GraphValidation

  // -------------------------------------------------------------------------
  // Lists of primitives

  lemma {:induction false} NodesFail(c: M.Candidate, ns: seq<NodeSpec>, k: nat)
    requires k <= |ns| && M.AddNodesTracked(c, ns[..k]).None?
    ensures M.AddNodesTracked(c, ns).None?
  {
    if k == |ns| {
      assert ns[..k] == ns;
    } else {
      var front := ns[..|ns| - 1];
      assert front[..k] == ns[..k];
      NodesFail(c, front, k);
    }
  }

  lemma {:induction false} EdgesFail(c: M.Candidate, es: seq<EdgeSpec>, k: nat)
    requires k <= |es| && M.AddEdgesTracked(c, es[..k]).None?
    ensures M.AddEdgesTracked(c, es).None?
  {
    if k == |es| {
      assert es[..k] == es;
    } else {
      var front := es[..|es| - 1];
      assert front[..k] == es[..k];
      EdgesFail(c, front, k);
    }
  }

  lemma {:induction false} RemovalsFail(c: M.Candidate, ids: seq<Id>, policy: RemovePolicy, k: nat)
    requires k <= |ids| && M.RemoveNodesTracked(c, ids[..k], policy).None?
    ensures M.RemoveNodesTracked(c, ids, policy).None?
  {
    if k == |ids| {
      assert ids[..k] == ids;
    } else {
      var front := ids[..|ids| - 1];
      assert front[..k] == ids[..k];
      RemovalsFail(c, front, policy, k);
    }
  }

  method AddNodeList(ns: seq<NodeSpec>, out: CandidateSpec) returns (s: Status)
    requires out.Valid()
    modifies out, out.candidate
    ensures s.Ok? <==> M.AddNodesTracked(old(out.view), ns).Some?
    ensures s.Ok? ==> out.Valid() && Some(out.view) == M.AddNodesTracked(old(out.view), ns)
  {
    ghost var c := out.view;
    s := Ok;
    for i := 0 to |ns|
      invariant s.Ok? && out.Valid() && M.AddNodesTracked(c, ns[..i]) == Some(out.view)
    {
      assert ns[..i + 1][..i] == ns[..i];
      s := AddNodeTracked(ns[i], out);
      if !s.Ok? {
        NodesFail(c, ns, i + 1);
        return;
      }
    }
    assert ns[..|ns|] == ns;
  }

  method AddEdgeList(es: seq<EdgeSpec>, out: CandidateSpec) returns (s: Status)
    requires out.Valid()
    modifies out, out.candidate
    ensures s.Ok? <==> M.AddEdgesTracked(old(out.view), es).Some?
    ensures s.Ok? ==> out.Valid() && Some(out.view) == M.AddEdgesTracked(old(out.view), es)
  {
    ghost var c := out.view;
    s := Ok;
    for i := 0 to |es|
      invariant s.Ok? && out.Valid() && M.AddEdgesTracked(c, es[..i]) == Some(out.view)
    {
      assert es[..i + 1][..i] == es[..i];
      s := AddEdgeTracked(es[i], out);
      if !s.Ok? {
        EdgesFail(c, es, i + 1);
        return;
      }
    }
    assert es[..|es|] == es;
  }

  method RemoveNodeList(ids: seq<Id>, policy: RemovePolicy, out: CandidateSpec) returns (s: Status)
    requires out.Valid()
    modifies out, out.candidate
    ensures s.Ok? <==> M.RemoveNodesTracked(old(out.view), ids, policy).Some?
    ensures s.Ok? ==> out.Valid() && Some(out.view) == M.RemoveNodesTracked(old(out.view), ids, policy)
    ensures !s.Ok? ==> s.NotFound?
  {
    ghost var c := out.view;
    s := Ok;
    for i := 0 to |ids|
      invariant s.Ok? && out.Valid() && M.RemoveNodesTracked(c, ids[..i], policy) == Some(out.view)
    {
      assert ids[..i + 1][..i] == ids[..i];
      s := RemoveNodeWithEdges(ids[i], policy, out);
      if !s.Ok? {
        RemovalsFail(c, ids, policy, i + 1);
        return;
      }
    }
    assert ids[..|ids|] == ids;
  }

  // -------------------------------------------------------------------------
  // insert_chain

  method ResolvePorts(r: M.Resolver, a: M.Action) returns (ports: Option<seq<M.Ports>>)
    requires a.InsertChainAction?
    ensures ports.Some? <==> M.PortsResolve(r, a)
    ensures ports.Some? ==> ports.value == M.ResolvedPorts(r, a)
  {
    var ps: seq<M.Ports> := [];
    for i := 0 to |a.chain|
      invariant |ps| == i
      invariant forall j :: 0 <= j < i ==> M.NodePorts(r, a, j) == Some(ps[j])
    {
      var p := M.NodePorts(r, a, i);
      if p.None? {
        return None;
      }
      ps := ps + [p.value];
    }
    return Some(ps);
  }

  method AnyPresent(g: GraphSpec, ns: seq<NodeSpec>) returns (present: bool)
    requires g.Lists()
    ensures present <==> exists i :: 0 <= i < |ns| && ns[i].id in g.model.nodes
  {
    for i := 0 to |ns|
      invariant forall j :: 0 <= j < i ==> ns[j].id !in g.model.nodes
    {
      var k := g.IndexOfNode(ns[i].id);
      if k < |g.nodes| {
        return true;
      }
    }
    return false;
  }

  method InsertChain(r: M.Resolver, a: M.Action, out: CandidateSpec) returns (s: Status)
    requires out.Valid() && a.InsertChainAction?
    modifies out, out.candidate
    ensures s.Ok? <==> M.InsertChain(r, old(out.view), a).Some?
    ensures s.Ok? ==> out.Valid() && Some(out.view) == M.InsertChain(r, old(out.view), a)
  {
    if a.chain == [] {
      return GraphInvalid;
    }
    var split := out.candidate.FindEdge(a.edge);
    if split.None? {
      return NotFound;
    }
    var present := AnyPresent(out.candidate, a.chain);
    if present {
      return AlreadyExists;
    }
    var ports := ResolvePorts(r, a);
    if ports.None? {
      return GraphInvalid;
    }
    assert M.CanInsert(r, out.view.graph, a);
    s := RemoveEdgeTracked(a.edge, out);
    s := AddNodeList(a.chain, out);
    if !s.Ok? {
      return;
    }
    s := AddEdgeList(M.SplitEdges(split.value, a.chain, ports.value), out);
  }

  // -------------------------------------------------------------------------
  // remove_chain

  method RemoveChain(chain: seq<Id>, mode: RemoveMode, policy: RemovePolicy, out: CandidateSpec) returns (s: Status)
    requires out.Valid()
    modifies out, out.candidate
    ensures s.Ok? <==> M.RemoveChain(old(out.view), chain, mode, policy).Some?
    ensures s.Ok? ==> out.Valid() && Some(out.view) == M.RemoveChain(old(out.view), chain, mode, policy)
  {
    if chain == [] {
      return GraphInvalid;
    }
    if mode.Disconnect? {
      s := RemoveNodeList(chain, policy, out);
      return;
    }
    var status, boundary := V.CheckLinearChain(out.candidate, chain);
    if !status.Ok? {
      return status;
    }
    ghost var c := out.view;
    var inbound := out.candidate.FindEdge(boundary.inbound);
    var outbound := out.candidate.FindEdge(boundary.outbound);
    M.BypassAt(c, chain, policy, boundary.inbound, boundary.outbound);
    s := RemoveNodeList(chain, policy, out);
    if !s.Ok? {
      return;
    }
    s := AddEdgeTracked(M.BypassEdge(inbound.value, outbound.value), out);
  }

  // -------------------------------------------------------------------------
  // replace_node

  /** Adding listed edges one by one is adding the set of them. */
  lemma {:induction false} AddedOneByOne(c: M.Candidate, es: seq<EdgeSpec>, m: map<Id, EdgeSpec>)
    requires ListsEdges(es, m) && "" !in m
    ensures M.AddEdgesTracked(c, es) == M.AddEdgeSetTracked(c, m)
  {
    if es == [] {
      assert m == map[] && m.Keys == {};
      assert c.graph.edges + m == c.graph.edges;
      assert EndNodes(c.graph.(edges := c.graph.edges + m), m.Keys) == {};
      assert M.AddEdgeSetTracked(c, m).value == c;
    } else {
      var k := |es| - 1;
      var front, last := es[..k], es[k];
      assert last in es;
      DropEdge(es, m, k);
      assert front == Without(es, k);
      AddedOneByOne(c, front, m - {last.id});
      OneMoreEdge(c, m, last);
    }
  }

  lemma {:induction false} OneMoreEdge(c: M.Candidate, m: map<Id, EdgeSpec>, e: EdgeSpec)
    requires e.id in m && m[e.id] == e && e.id != ""
    requires forall x :: x in m ==> m[x].id == x
    ensures M.AddEdgeSetTracked(c, m) ==
            (match M.AddEdgeSetTracked(c, m - {e.id})
             case None => None
             case Some(d) => M.AddEdgeTracked(d, e))
  {
    var n := m - {e.id};
    OneMoreAllowed(c.graph, m, e);
    if M.CanAddEdgeSet(c.graph, m) {
      OneMoreAdded(c, m, e);
    }
  }

  lemma {:induction false} OneMoreAllowed(g: Graph, m: map<Id, EdgeSpec>, e: EdgeSpec)
    requires e.id in m && m[e.id] == e
    ensures M.CanAddEdgeSet(g, m) <==>
            M.CanAddEdgeSet(g, m - {e.id}) && CanAddEdge(g.(edges := g.edges + (m - {e.id})), e)
  {
    if M.CanAddEdgeSet(g, m) {
      LastFits(g, m, e);
    } else if M.CanAddEdgeSet(g, m - {e.id}) && CanAddEdge(g.(edges := g.edges + (m - {e.id})), e) {
      AllFit(g, m, e);
    }
  }

  lemma {:induction false} OneMoreAdded(c: M.Candidate, m: map<Id, EdgeSpec>, e: EdgeSpec)
    requires e.id in m && m[e.id] == e && e.id != ""
    requires M.CanAddEdgeSet(c.graph, m) && M.CanAddEdgeSet(c.graph, m - {e.id})
    requires CanAddEdge(c.graph.(edges := c.graph.edges + (m - {e.id})), e)
    ensures M.AddEdgeSetTracked(c, m) == M.AddEdgeTracked(M.AddEdgeSetTracked(c, m - {e.id}).value, e)
  {
    var n := m - {e.id};
    var d := M.AddEdgeSetTracked(c, n).value;
    EndNodesMore(c.graph, m, e);
    Regroup(c.addedEdges, n.Keys, {e.id});
    Regroup(c.touchedEdges, n.Keys, {e.id});
    Regroup(c.touchedNodes, EndNodes(d.graph, n.Keys), {e.from.node, e.to.node});
  }

  lemma {:induction false} Regroup<T>(a: set<T>, b: set<T>, c: set<T>)
    ensures a + (b + c) == a + b + c
  {
  }

  lemma {:induction false} EndNodesMore(g: Graph, m: map<Id, EdgeSpec>, e: EdgeSpec)
    requires e.id in m && m[e.id] == e
    ensures m.Keys == (m - {e.id}).Keys + {e.id}
    ensures g.edges + m == (g.edges + (m - {e.id}))[e.id := e]
    ensures EndNodes(g.(edges := g.edges + m), m.Keys)
         == EndNodes(g.(edges := g.edges + (m - {e.id})), (m - {e.id}).Keys) + {e.from.node, e.to.node}
  {
  }

  lemma {:induction false} LastFits(g: Graph, m: map<Id, EdgeSpec>, e: EdgeSpec)
    requires e.id in m && m[e.id] == e && M.CanAddEdgeSet(g, m)
    ensures M.CanAddEdgeSet(g, m - {e.id})
    ensures CanAddEdge(g.(edges := g.edges + (m - {e.id})), e)
  {
    var h := g.(edges := g.edges + (m - {e.id}));
    forall f | f in h.edges ensures !SamePair(h.edges[f], e) {
      if f in m {
        assert h.edges[f] == m[f];
      } else {
        assert h.edges[f] == g.edges[f];
      }
    }
  }

  lemma {:induction false} AllFit(g: Graph, m: map<Id, EdgeSpec>, e: EdgeSpec)
    requires e.id in m && m[e.id] == e && M.CanAddEdgeSet(g, m - {e.id})
    requires CanAddEdge(g.(edges := g.edges + (m - {e.id})), e)
    ensures M.CanAddEdgeSet(g, m)
  {
    var n := m - {e.id};
    var h := g.(edges := g.edges + n);
    forall f | f in g.edges ensures !SamePair(g.edges[f], e) {
      assert f !in n;
      assert h.edges[f] == g.edges[f];
    }
    assert CanAddEdge(g, e);
    forall x | x in m ensures m[x].id == x && CanAddEdge(g, m[x]) {
      if x != e.id {
        assert x in n && n[x] == m[x];
      }
    }
    forall x, y | x in m && y in m && x != y ensures !SamePair(m[x], m[y]) {
      if x != e.id {
        assert x in n && n[x] == m[x] && h.edges[x] == m[x];
      }
      if y != e.id {
        assert y in n && n[y] == m[y] && h.edges[y] == m[y];
      }
    }
  }

  /** Maps the ends of the listed edges that lie on the replaced node. */
  method RemapList(r: M.Resolver, a: M.Action, es: seq<EdgeSpec>) returns (mapped: Option<seq<EdgeSpec>>)
    requires a.ReplaceNodeAction?
    ensures mapped.Some? <==> forall i :: 0 <= i < |es| ==> M.Remap(r, a, es[i]).Some?
    ensures mapped.Some? ==> |mapped.value| == |es|
    ensures mapped.Some? ==> forall i :: 0 <= i < |es| ==> M.Remap(r, a, es[i]) == Some(mapped.value[i])
  {
    var ms: seq<EdgeSpec> := [];
    for i := 0 to |es|
      invariant |ms| == i
      invariant forall j :: 0 <= j < i ==> M.Remap(r, a, es[j]) == Some(ms[j])
    {
      var m := M.Remap(r, a, es[i]);
      if m.None? {
        return None;
      }
      ms := ms + [m.value];
    }
    return Some(ms);
  }

  /** Incoming edges, then the outgoing ones that are not self loops. */
  method IncidentList(g: GraphSpec, n: Id) returns (es: seq<EdgeSpec>)
    requires g.Lists()
    ensures UniqueEdges(es)
    ensures forall e :: e in es <==> e in g.edges && Ends(e, n)
  {
    es := g.EdgesTo(n);
    ghost var incoming := es;
    var outgoing := g.EdgesFrom(n);
    for i := 0 to |outgoing|
      invariant UniqueEdges(es)
      invariant forall e :: e in es <==> e in incoming || (e in outgoing[..i] && e.to.node != n)
    {
      if outgoing[i].to.node != n {
        forall j | 0 <= j < |es| ensures es[j].id != outgoing[i].id {
          assert es[j] in es && outgoing[i] in outgoing;
          SameIdSameEdge(g, es[j], outgoing[i]);
        }
        es := es + [outgoing[i]];
      }
    }
  }

  lemma {:induction false} SameIdSameEdge(g: GraphSpec, e: EdgeSpec, f: EdgeSpec)
    requires g.Lists() && e in g.edges && f in g.edges
    ensures e.id == f.id ==> e == f
  {
  }

  lemma {:induction false} RemappedListed(r: M.Resolver, g: GraphSpec, a: M.Action, es: seq<EdgeSpec>)
    requires g.Lists() && a.ReplaceNodeAction?
    requires forall e :: e in es <==> e in g.edges && Ends(e, a.target)
    ensures M.CanRemap(r, g.model, a) <==> forall i :: 0 <= i < |es| ==> M.Remap(r, a, es[i]).Some?
  {
    if M.CanRemap(r, g.model, a) {
      forall i | 0 <= i < |es| ensures M.Remap(r, a, es[i]).Some? {
        assert es[i] in es && es[i].id in Incident(g.model, a.target);
      }
    } else {
      var x :| x in Incident(g.model, a.target) && M.Remap(r, a, g.model.edges[x]).None?;
      assert g.model.edges[x] in es;
    }
  }

  lemma {:induction false} RemappedEdgesListed(r: M.Resolver, g: GraphSpec, a: M.Action, es: seq<EdgeSpec>,
        ms: seq<EdgeSpec>)
    requires g.Lists() && a.ReplaceNodeAction? && M.CanRemap(r, g.model, a)
    requires UniqueEdges(es) && forall e :: e in es <==> e in g.edges && Ends(e, a.target)
    requires |ms| == |es| && forall i :: 0 <= i < |es| ==> M.Remap(r, a, es[i]) == Some(ms[i])
    ensures ListsEdges(ms, M.Remapped(r, g.model, a))
  {
    var m := M.Remapped(r, g.model, a);
    forall i | 0 <= i < |es|
      ensures ms[i].id == es[i].id && es[i].id in m && m[es[i].id] == ms[i]
    {
      assert es[i] in es;
    }
    forall x | x in m ensures m[x].id == x && m[x] in ms {
      assert g.model.edges[x] in es;
      var i :| 0 <= i < |es| && es[i] == g.model.edges[x];
      assert m[x] == ms[i];
    }
  }

  lemma {:induction false} RemappedHaveIds(r: M.Resolver, g: Graph, a: M.Action)
    requires WellFormed(g) && a.ReplaceNodeAction? && M.CanRemap(r, g, a)
    ensures "" !in M.Remapped(r, g, a)
  {
  }

  method ReplaceNode(r: M.Resolver, a: M.Action, policy: RemovePolicy, out: CandidateSpec) returns (s: Status)
    requires out.Valid() && a.ReplaceNodeAction?
    modifies out, out.candidate
    ensures s.Ok? <==> M.ReplaceNode(r, old(out.view), a, policy).Some?
    ensures s.Ok? ==> out.Valid() && Some(out.view) == M.ReplaceNode(r, old(out.view), a, policy)
  {
    var found := out.candidate.FindNode(a.target);
    if found.None? {
      return NotFound;
    }
    var replacement := found.value.(op := a.op, options := a.options);
    var incident := IncidentList(out.candidate, a.target);
    var mapped := RemapList(r, a, incident);
    RemappedListed(r, out.candidate, a, incident);
    if mapped.None? {
      return GraphInvalid;
    }
    RemappedEdgesListed(r, out.candidate, a, incident, mapped.value);
    ghost var m := M.Remapped(r, out.view.graph, a);
    RemappedHaveIds(r, out.view.graph, a);
    s := RemoveNodeWithEdges(a.target, policy, out);
    s := AddNodeTracked(replacement, out);
    if !s.Ok? {
      return;
    }
    AddedOneByOne(out.view, mapped.value, m);
    s := AddEdgeList(mapped.value, out);
  }

  // -------------------------------------------------------------------------
  // remove_branch

  /** Checks the entry edges and collects the nodes they lead to. */
  method CheckEntries(g: GraphSpec, nodes: seq<Id>, entries: seq<Id>) returns (s: Status, stack: seq<Id>)
    requires g.Lists()
    ensures s.Ok? <==> M.EntriesEnter(g.model, M.Elements(nodes), entries)
    ensures s.Ok? ==> M.Elements(stack) == M.Targets(g.model, entries) && M.Elements(stack) <= M.Elements(nodes)
  {
    stack := [];
    for i := 0 to |entries|
      invariant M.EntriesEnter(g.model, M.Elements(nodes), entries[..i])
      invariant |stack| == i && forall j :: 0 <= j < i ==> stack[j] == g.model.edges[entries[j]].to.node
    {
      var e := g.FindEdge(entries[i]);
      if e.None? {
        return NotFound, stack;
      }
      if e.value.to.node !in nodes || e.value.from.node in nodes {
        return GraphInvalid, stack;
      }
      stack := stack + [e.value.to.node];
    }
    assert entries[..|entries|] == entries;
    return Ok, stack;
  }

  /** Everything reached or waiting can be reached, and what is reached has its successors noted. */
  ghost predicate Searching(g: Graph, sel: set<Id>, starts: set<Id>, reached: set<Id>, waiting: set<Id>) {
    && reached <= sel && waiting <= sel && starts <= reached + waiting
    && (forall x :: x in reached || x in waiting ==> M.ReachableWithin(g, sel, starts, x))
    && (forall x, y :: x in reached && y in sel && M.Hop(g, x, y) ==> y in reached || y in waiting)
  }

  lemma {:induction false} StartReachable(g: Graph, sel: set<Id>, starts: set<Id>, x: Id)
    requires x in starts && x in sel
    ensures M.ReachableWithin(g, sel, starts, x)
  {
    assert M.WalkTo(g, sel, starts, [x], x);
  }

  lemma {:induction false} HopReachable(g: Graph, sel: set<Id>, starts: set<Id>, x: Id, y: Id)
    requires M.ReachableWithin(g, sel, starts, x) && M.Hop(g, x, y) && y in sel
    ensures M.ReachableWithin(g, sel, starts, y)
  {
    var walk :| M.WalkTo(g, sel, starts, walk, x);
    assert M.WalkTo(g, sel, starts, walk + [y], y);
  }

  lemma {:induction false} WalkInside(g: Graph, sel: set<Id>, starts: set<Id>, reached: set<Id>, walk: seq<Id>)
    requires Searching(g, sel, starts, reached, {})
    requires M.IsWalk(g, sel, walk) && walk != [] && walk[0] in starts
    ensures walk[|walk| - 1] in reached
  {
    if |walk| > 1 {
      var front := walk[..|walk| - 1];
      WalkInside(g, sel, starts, reached, front);
      assert M.Hop(g, front[|front| - 1], walk[|walk| - 1]);
    }
  }

  /** Once nothing waits, exactly the reachable nodes have been reached. */
  lemma {:induction false} SearchDone(g: Graph, sel: set<Id>, starts: set<Id>, reached: set<Id>)
    requires Searching(g, sel, starts, reached, {})
    ensures forall n :: n in reached <==> M.ReachableWithin(g, sel, starts, n)
  {
    forall n | M.ReachableWithin(g, sel, starts, n) ensures n in reached {
      var walk :| M.WalkTo(g, sel, starts, walk, n);
      WalkInside(g, sel, starts, reached, walk);
    }
  }

  lemma {:induction false} SearchStart(g: Graph, sel: set<Id>, starts: set<Id>)
    requires starts <= sel
    ensures Searching(g, sel, starts, {}, starts)
  {
    forall x | x in starts ensures M.ReachableWithin(g, sel, starts, x) {
      StartReachable(g, sel, starts, x);
    }
  }

  /** Visiting n turns its successors in the selection into waiting nodes. */
  lemma {:induction false} SearchStep(g: Graph, sel: set<Id>, starts: set<Id>, reached: set<Id>, waiting: set<Id>,
        n: Id, next: set<Id>)
    requires Searching(g, sel, starts, reached, waiting) && n in waiting
    requires forall y :: y in next <==> y in sel && M.Hop(g, n, y)
    ensures Searching(g, sel, starts, reached + {n}, waiting - {n} + next)
  {
    forall y | y in next ensures M.ReachableWithin(g, sel, starts, y) {
      HopReachable(g, sel, starts, n, y);
    }
  }

  /** The heads of the edges out of n that stay in the selection. */
  method Successors(g: GraphSpec, n: Id, nodes: seq<Id>) returns (next: seq<Id>)
    requires g.Lists()
    ensures forall y :: y in M.Elements(next) <==> y in M.Elements(nodes) && M.Hop(g.model, n, y)
  {
    var outgoing := g.EdgesFrom(n);
    next := [];
    for i := 0 to |outgoing|
      invariant forall y :: y in next <==> y in nodes && exists j :: 0 <= j < i && outgoing[j].to.node == y
    {
      if outgoing[i].to.node in nodes {
        next := next + [outgoing[i].to.node];
      }
    }
    forall y ensures (exists j :: 0 <= j < |outgoing| && outgoing[j].to.node == y) <==> M.Hop(g.model, n, y) {
      HopListed(g, n, outgoing, y);
    }
  }

  lemma {:induction false} HopListed(g: GraphSpec, n: Id, outgoing: seq<EdgeSpec>, y: Id)
    requires g.Lists()
    requires forall e :: e in outgoing <==> e in g.edges && e.from.node == n
    ensures (exists j :: 0 <= j < |outgoing| && outgoing[j].to.node == y) <==> M.Hop(g.model, n, y)
  {
    if j :| 0 <= j < |outgoing| && outgoing[j].to.node == y {
      assert outgoing[j] in outgoing && outgoing[j].id in M.Between(g.model, n, y);
    }
    if M.Hop(g.model, n, y) {
      var x :| x in M.Between(g.model, n, y);
      assert g.model.edges[x] in outgoing;
    }
  }

  /** Popping a node already reached loses nothing. */
  lemma {:induction false} PopKnown(g: Graph, sel: set<Id>, starts: set<Id>, reached: set<Id>, stack: seq<Id>)
    requires stack != [] && Searching(g, sel, starts, reached, M.Elements(stack)) && stack[|stack| - 1] in reached
    ensures Searching(g, sel, starts, reached, M.Elements(stack[..|stack| - 1]))
  {
    var n, rest := stack[|stack| - 1], stack[..|stack| - 1];
    assert M.Elements(stack) == M.Elements(rest) + {n};
  }

  lemma {:induction false} PopNew(g: Graph, sel: set<Id>, starts: set<Id>, reached: set<Id>, stack: seq<Id>,
        next: seq<Id>)
    requires stack != [] && Searching(g, sel, starts, reached, M.Elements(stack)) && stack[|stack| - 1] !in reached
    requires forall y :: y in M.Elements(next) <==> y in sel && M.Hop(g, stack[|stack| - 1], y)
    ensures Searching(g, sel, starts, reached + {stack[|stack| - 1]}, M.Elements(stack[..|stack| - 1] + next))
    ensures |sel - (reached + {stack[|stack| - 1]})| < |sel - reached|
  {
    var n, rest := stack[|stack| - 1], stack[..|stack| - 1];
    assert M.Elements(stack) == M.Elements(rest) + {n};
    SearchStep(g, sel, starts, reached, M.Elements(stack), n, M.Elements(next));
    assert M.Elements(rest + next) == M.Elements(rest) + M.Elements(next);
    SearchGrows(g, sel, starts, reached + {n}, M.Elements(stack) - {n} + M.Elements(next), M.Elements(rest + next));
    assert sel - reached == sel - (reached + {n}) + {n};
  }

  lemma {:induction false} SearchGrows(g: Graph, sel: set<Id>, starts: set<Id>, reached: set<Id>, waiting: set<Id>,
        more: set<Id>)
    requires Searching(g, sel, starts, reached, waiting) && waiting <= more <= waiting + reached
    ensures Searching(g, sel, starts, reached, more)
  {
  }

  /** Depth-first search from the entry targets, restricted to the selection. */
  method Reach(g: GraphSpec, nodes: seq<Id>, first: seq<Id>) returns (reached: set<Id>)
    requires g.Lists() && M.Elements(first) <= M.Elements(nodes)
    ensures forall n :: n in reached <==> M.ReachableWithin(g.model, M.Elements(nodes), M.Elements(first), n)
  {
    ghost var graph, sel, starts := g.model, M.Elements(nodes), M.Elements(first);
    var stack := first;
    reached := {};
    SearchStart(graph, sel, starts);
    while stack != []
      invariant Searching(graph, sel, starts, reached, M.Elements(stack))
      decreases |sel - reached|, |stack|
    {
      var n := stack[|stack| - 1];
      if n in reached {
        PopKnown(graph, sel, starts, reached, stack);
        stack := stack[..|stack| - 1];
      } else {
        var next := Successors(g, n, nodes);
        PopNew(graph, sel, starts, reached, stack, next);
        stack, reached := stack[..|stack| - 1] + next, reached + {n};
      }
    }
    SearchDone(graph, sel, starts, reached);
  }

  method AllPresent(g: GraphSpec, nodes: seq<Id>) returns (ok: bool)
    requires g.Lists()
    ensures ok <==> forall i :: 0 <= i < |nodes| ==> nodes[i] in g.model.nodes
  {
    for i := 0 to |nodes|
      invariant forall j :: 0 <= j < i ==> nodes[j] in g.model.nodes
    {
      var k := g.IndexOfNode(nodes[i]);
      if k == |g.nodes| {
        return false;
      }
    }
    return true;
  }

  method AllReached(nodes: seq<Id>, reached: set<Id>) returns (ok: bool)
    ensures ok <==> forall i :: 0 <= i < |nodes| ==> nodes[i] in reached
  {
    for i := 0 to |nodes|
      invariant forall j :: 0 <= j < i ==> nodes[j] in reached
    {
      if nodes[i] !in reached {
        return false;
      }
    }
    return true;
  }

  method CheckBranch(g: GraphSpec, nodes: seq<Id>, entries: seq<Id>) returns (s: Status)
    requires g.Lists()
    ensures s.Ok? <==> M.CanRemoveBranch(g.model, nodes, entries)
  {
    if nodes == [] {
      return GraphInvalid;
    }
    var status, stack := CheckEntries(g, nodes, entries);
    if !status.Ok? {
      return status;
    }
    var present := AllPresent(g, nodes);
    if !present {
      return NotFound;
    }
    var reached := Reach(g, nodes, stack);
    var complete := AllReached(nodes, reached);
    if !complete {
      return GraphInvalid;
    }
    var deps := V.FindSharedDependencies(g, nodes, entries);
    return if deps == [] then Ok else SharedDependency;
  }

  method RemoveBranch(nodes: seq<Id>, entries: seq<Id>, policy: RemovePolicy, out: CandidateSpec) returns (s: Status)
    requires out.Valid()
    modifies out, out.candidate
    ensures s.Ok? <==> M.RemoveBranch(old(out.view), nodes, entries, policy).Some?
    ensures s.Ok? ==> out.Valid() && Some(out.view) == M.RemoveBranch(old(out.view), nodes, entries, policy)
  {
    s := CheckBranch(out.candidate, nodes, entries);
    if s.Ok? {
      s := RemoveNodeList(nodes, policy, out);
    }
  }

  /**
   * Branch removal in closed form: it accepts exactly the repeat-free exclusive
   * selections and removes the selection with its incident edges, nothing else.
   */
  lemma {:induction false} BranchRemovalExact(c: M.Candidate, nodes: seq<Id>, entries: seq<Id>, policy: RemovePolicy)
    ensures M.RemoveBranch(c, nodes, entries, policy).Some? <==>
            M.CanRemoveBranch(c.graph, nodes, entries) && NoRepeats(nodes)
    ensures M.RemoveBranch(c, nodes, entries, policy).Some? ==>
            M.RemoveBranch(c, nodes, entries, policy).value.graph == F.GraphWithout(c.graph, M.Elements(nodes))
  {
    F.RemoveNodesClosed(c, nodes, policy);
  }

  // -------------------------------------------------------------------------
  // Actions and patches

  method SetNodeOptions(n: Id, parameters: Json, out: CandidateSpec) returns (s: Status)
    requires out.Valid()
    modifies out
    ensures s.Ok? <==> M.SetNodeOptions(old(out.view), n, parameters).Some?
    ensures s.Ok? ==> out.Valid() && Some(out.view) == M.SetNodeOptions(old(out.view), n, parameters)
  {
    var k := out.candidate.IndexOfNode(n);
    if k == |out.candidate.nodes| {
      return NotFound;
    }
    TouchLists(out.lists.touchedNodes, n, out.view.touchedNodes);
    out.lists := NoteOptions(out.lists, n, parameters);
    out.view := M.SetNodeOptions(out.view, n, parameters).value;
    return Ok;
  }

  method ApplyOne(r: M.Resolver, a: M.Action, default: RemovePolicy, out: CandidateSpec) returns (s: Status)
    requires out.Valid()
    modifies out, out.candidate
    ensures s.Ok? <==> M.ApplyOne(r, old(out.view), a, default).Some?
    ensures s.Ok? ==> out.Valid() && Some(out.view) == M.ApplyOne(r, old(out.view), a, default)
  {
    match a
    case AddNodeAction(node) =>
      s := AddNodeTracked(node, out);
    case RemoveNodeAction(target, mode, policy) =>
      if mode.Bypass? {
        s := RemoveChain([target], mode, M.PolicyOr(policy, default), out);
      } else {
        s := RemoveNodeWithEdges(target, M.PolicyOr(policy, default), out);
      }
    case InsertChainAction(_, _, _, _) =>
      s := InsertChain(r, a, out);
    case RemoveChainAction(nodes, mode, policy) =>
      s := RemoveChain(nodes, mode, M.PolicyOr(policy, default), out);
    case ReplaceNodeAction(_, _, _, _, policy) =>
      s := ReplaceNode(r, a, M.PolicyOr(policy, default), out);
    case RemoveBranchAction(_, nodes, policy, _) =>
      s := RemoveBranch(nodes, M.EntryEdges(a), M.PolicyOr(policy, default), out);
    case AddEdgeAction(newEdge) =>
      s := AddEdgeTracked(newEdge, out);
    case RemoveEdgeAction(edge) =>
      s := RemoveEdgeTracked(edge, out);
    case SetNodeOptionsAction(target, parameters) =>
      s := SetNodeOptions(target, parameters, out);
  }

  lemma {:induction false} ActionsFail(r: M.Resolver, c: M.Candidate, actions: seq<M.Action>, default: RemovePolicy,
        k: nat)
    requires k <= |actions| && M.ApplyAll(r, c, actions[..k], default).None?
    ensures M.ApplyAll(r, c, actions, default).None?
  {
    if k == |actions| {
      assert actions[..k] == actions;
    } else {
      var front := actions[..|actions| - 1];
      assert front[..k] == actions[..k];
      ActionsFail(r, c, front, default, k);
    }
  }

  method ApplyAll(r: M.Resolver, actions: seq<M.Action>, default: RemovePolicy, out: CandidateSpec) returns (s: Status)
    requires out.Valid()
    modifies out, out.candidate
    ensures s.Ok? <==> M.ApplyAll(r, old(out.view), actions, default).Some?
    ensures s.Ok? ==> out.Valid() && Some(out.view) == M.ApplyAll(r, old(out.view), actions, default)
  {
    ghost var c := out.view;
    s := Ok;
    for i := 0 to |actions|
      invariant s.Ok? && out.Valid() && M.ApplyAll(r, c, actions[..i], default) == Some(out.view)
    {
      assert actions[..i + 1][..i] == actions[..i];
      s := ApplyOne(r, actions[i], default, out);
      if !s.Ok? {
        ActionsFail(r, c, actions, default, i + 1);
        return;
      }
    }
    assert actions[..|actions|] == actions;
  }

  /** Applies a patch to a copy of the base graph; the base itself is never written. */
  method Apply(r: M.Resolver, g: GraphSpec, p: M.Patch) returns (s: Status, out: CandidateSpec)
    requires g.Valid()
    ensures fresh(out) && fresh(out.candidate) && out.base == g.model
    ensures s.Ok? <==> M.Apply(r, g.model, p).Some?
    ensures s.Ok? ==> out.Valid() && Some(out.view) == M.Apply(r, g.model, p)
  {
    out := new CandidateSpec(g);
    if p.actions == [] {
      return InvalidArgument, out;
    }
    s := ApplyAll(r, p.actions, p.removePolicy, out);
  }
}
