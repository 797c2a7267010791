/**
 * The structural checks of GraphValidator that mutation relies on: the linear
 * chain check and the search for edges shared with the rest of the graph.
 */
module GraphValidation {
  import opened Wrappers
  import opened GraphModel
  import opened GraphSpecs
  import M = MutationModel

  /** Counts the edges of the vector that join two nodes. */
  method CountLinks(g: GraphSpec, a: Id, b: Id) returns (links: nat)
    requires g.Lists()
    ensures links == |M.Between(g.model, a, b)|
  {
    links := 0;
    ghost var seen: set<Id> := {};
    for i := 0 to |g.edges|
      invariant links == |seen|
      invariant forall x :: x in seen <==>
                  exists j :: 0 <= j < i && g.edges[j].id == x && g.edges[j].from.node == a && g.edges[j].to.node == b
    {
      if g.edges[i].from.node == a && g.edges[i].to.node == b {
        assert g.edges[i].id !in seen;
        seen := seen + {g.edges[i].id};
        links := links + 1;
      }
    }
    assert seen == M.Between(g.model, a, b) by {
      forall x ensures x in seen <==> x in M.Between(g.model, a, b) {
        if x in M.Between(g.model, a, b) {
          assert g.model.edges[x] in g.edges;
        }
        if x in seen {
          var j :| 0 <= j < |g.edges| && g.edges[j].id == x && g.edges[j].from.node == a && g.edges[j].to.node == b;
          assert g.edges[j] in g.edges;
        }
      }
    }
  }

  /** All named nodes exist and none is repeated. */
  method CheckMembers(g: GraphSpec, chain: seq<Id>) returns (s: Status)
    requires g.Lists()
    ensures s.Ok? <==> NoRepeats(chain) && forall i :: 0 <= i < |chain| ==> chain[i] in g.model.nodes
  {
    for i := 0 to |chain|
      invariant NoRepeats(chain[..i])
      invariant forall j :: 0 <= j < i ==> chain[j] in g.model.nodes
    {
      var k := g.IndexOfNode(chain[i]);
      if k == |g.nodes| {
        return NotFound;
      }
      if chain[i] in chain[..i] {
        return GraphInvalid;
      }
    }
    assert chain[..|chain|] == chain;
    return Ok;
  }

  method CheckLinks(g: GraphSpec, chain: seq<Id>) returns (ok: bool)
    requires g.Lists()
    ensures ok <==> forall i :: 0 <= i < |chain| - 1 ==> |M.Between(g.model, chain[i], chain[i + 1])| == 1
  {
    var i := 0;
    while i + 1 < |chain|
      invariant 0 <= i && (i == 0 || i < |chain|)
      invariant forall j :: 0 <= j < i ==> |M.Between(g.model, chain[j], chain[j + 1])| == 1
    {
      var links := CountLinks(g, chain[i], chain[i + 1]);
      if links != 1 {
        return false;
      }
      i := i + 1;
    }
    return true;
  }

  /** The edge crosses the boundary of the chain inwards, or outwards. */
  predicate Crosses(e: EdgeSpec, chain: seq<Id>, inwards: bool) {
    if inwards then e.from.node !in chain && e.to.node in chain else e.from.node in chain && e.to.node !in chain
  }

  /** It does so at the head of the chain, or at its tail. */
  predicate AtEnd(e: EdgeSpec, chain: seq<Id>, inwards: bool)
    requires chain != []
  {
    if inwards then e.to.node == chain[0] else e.from.node == chain[|chain| - 1]
  }

  /** Some edge crosses away from the end, or two edges cross. */
  ghost predicate Shares(es: seq<EdgeSpec>, chain: seq<Id>, inwards: bool)
    requires chain != []
  {
    || (exists j :: 0 <= j < |es| && Crosses(es[j], chain, inwards) && !AtEnd(es[j], chain, inwards))
    || (exists j, k :: 0 <= j < k < |es| && Crosses(es[j], chain, inwards) && Crosses(es[k], chain, inwards))
  }

  /** `at` is the one crossing of the scanned edges, at the end ("" while there is none). */
  ghost predicate Scanned(es: seq<EdgeSpec>, chain: seq<Id>, inwards: bool, at: Id)
    requires chain != []
  {
    if at == "" then
      forall j :: 0 <= j < |es| ==> !Crosses(es[j], chain, inwards)
    else
      exists k :: 0 <= k < |es| && OnlyAt(es, chain, inwards, k) && es[k].id == at
  }

  ghost predicate OnlyAt(es: seq<EdgeSpec>, chain: seq<Id>, inwards: bool, k: nat)
    requires chain != [] && k < |es|
  {
    && Crosses(es[k], chain, inwards) && AtEnd(es[k], chain, inwards)
    && forall j :: 0 <= j < |es| && j != k ==> !Crosses(es[j], chain, inwards)
  }

  lemma {:induction false} ScanOne(es: seq<EdgeSpec>, e: EdgeSpec, chain: seq<Id>, inwards: bool, at: Id)
    requires chain != [] && e.id != "" && Scanned(es, chain, inwards, at)
    ensures !Crosses(e, chain, inwards) ==> Scanned(es + [e], chain, inwards, at)
    ensures Crosses(e, chain, inwards) && AtEnd(e, chain, inwards) && at == "" ==> Scanned(es + [e], chain, inwards, e.id)
    ensures Crosses(e, chain, inwards) && !(AtEnd(e, chain, inwards) && at == "") ==> Shares(es + [e], chain, inwards)
  {
    var fs := es + [e];
    assert fs[|es|] == e;
    if at != "" {
      var k :| 0 <= k < |es| && OnlyAt(es, chain, inwards, k) && es[k].id == at;
      assert fs[k] == es[k];
      assert !Crosses(e, chain, inwards) ==> OnlyAt(fs, chain, inwards, k);
    } else if Crosses(e, chain, inwards) && AtEnd(e, chain, inwards) {
      assert OnlyAt(fs, chain, inwards, |es|);
    }
  }

  lemma {:induction false} SharesMore(es: seq<EdgeSpec>, e: EdgeSpec, chain: seq<Id>, inwards: bool)
    requires chain != [] && Shares(es, chain, inwards)
    ensures Shares(es + [e], chain, inwards)
  {
    var fs := es + [e];
    if j :| 0 <= j < |es| && Crosses(es[j], chain, inwards) && !AtEnd(es[j], chain, inwards) {
      assert fs[j] == es[j];
    } else {
      var j, k :| 0 <= j < k < |es| && Crosses(es[j], chain, inwards) && Crosses(es[k], chain, inwards);
      assert fs[j] == es[j] && fs[k] == es[k];
    }
  }

  /** The single edge that crosses the boundary, and does so at the end. */
  ghost predicate Sole(g: Graph, chain: seq<Id>, inwards: bool, x: Id)
    requires chain != []
  {
    && (if inwards then M.Entering(g, M.Elements(chain)) else M.Leaving(g, M.Elements(chain))) == {x}
    && x in g.edges && AtEnd(g.edges[x], chain, inwards)
  }

  ghost function Crossing(g: Graph, chain: seq<Id>, inwards: bool): (r: set<Id>)
    ensures forall e :: e in r <==> e in g.edges && Crosses(g.edges[e], chain, inwards)
  {
    if inwards then M.Entering(g, M.Elements(chain)) else M.Leaving(g, M.Elements(chain))
  }

  lemma {:induction false} ScannedAll(es: seq<EdgeSpec>, g: Graph, chain: seq<Id>, inwards: bool, at: Id)
    requires chain != [] && ListsEdges(es, g.edges) && Scanned(es, chain, inwards, at)
    ensures at != "" ==> Sole(g, chain, inwards, at)
    ensures at == "" ==> forall x :: !Sole(g, chain, inwards, x)
  {
    var r := Crossing(g, chain, inwards);
    if at == "" {
      forall x ensures x !in r {
        assert x in g.edges ==> g.edges[x] in es;
      }
    } else {
      var k :| 0 <= k < |es| && OnlyAt(es, chain, inwards, k) && es[k].id == at;
      assert es[k] in es;
      forall x ensures x in r <==> x == at {
        assert x in g.edges ==> g.edges[x] in es;
      }
      assert r == {at};
    }
  }

  lemma {:induction false} SharesAll(es: seq<EdgeSpec>, g: Graph, chain: seq<Id>, inwards: bool, x: Id)
    requires chain != [] && ListsEdges(es, g.edges) && Shares(es, chain, inwards)
    ensures !Sole(g, chain, inwards, x)
  {
    var r := Crossing(g, chain, inwards);
    if j :| 0 <= j < |es| && Crosses(es[j], chain, inwards) && !AtEnd(es[j], chain, inwards) {
      assert es[j] in es && es[j].id in r;
    } else {
      var j, k :| 0 <= j < k < |es| && Crosses(es[j], chain, inwards) && Crosses(es[k], chain, inwards);
      assert es[j] in es && es[j].id in r;
      assert es[k] in es && es[k].id in r;
    }
  }

  method PositionIn(chain: seq<Id>, x: Id) returns (k: nat)
    requires x in chain
    ensures k < |chain| && chain[k] == x
  {
    for i := 0 to |chain|
      invariant x !in chain[..i]
    {
      if chain[i] == x {
        return i;
      }
    }
    assert false;
  }

  ghost predicate InnerSteps(es: seq<EdgeSpec>, chain: seq<Id>) {
    forall j :: 0 <= j < |es| && es[j].from.node in chain && es[j].to.node in chain
      ==> M.Consecutive(chain, es[j].from.node, es[j].to.node)
  }

  method StepsForward(e: EdgeSpec, chain: seq<Id>) returns (ok: bool)
    requires e.from.node in chain && e.to.node in chain && NoRepeats(chain)
    ensures ok <==> M.Consecutive(chain, e.from.node, e.to.node)
  {
    var fi := PositionIn(chain, e.from.node);
    var ti := PositionIn(chain, e.to.node);
    return ti == fi + 1;
  }

  datatype Boundary = Boundary(inbound: Id, outbound: Id, shared: bool)

  /** What the scan records of an edge with at most one end in the chain. */
  function NoteCrossing(b: Boundary, e: EdgeSpec, chain: seq<Id>): Boundary
    requires chain != []
  {
    if Crosses(e, chain, true) then
      if AtEnd(e, chain, true) && b.inbound == "" then b.(inbound := e.id) else b.(shared := true)
    else if Crosses(e, chain, false) then
      if AtEnd(e, chain, false) && b.outbound == "" then b.(outbound := e.id) else b.(shared := true)
    else b
  }

  ghost predicate BoundaryOf(es: seq<EdgeSpec>, chain: seq<Id>, b: Boundary)
    requires chain != []
  {
    if b.shared then Shares(es, chain, true) || Shares(es, chain, false)
    else Scanned(es, chain, true, b.inbound) && Scanned(es, chain, false, b.outbound)
  }

  lemma {:induction false} NoteCrossingOk(es: seq<EdgeSpec>, e: EdgeSpec, chain: seq<Id>, b: Boundary)
    requires chain != [] && e.id != "" && BoundaryOf(es, chain, b)
    ensures BoundaryOf(es + [e], chain, NoteCrossing(b, e, chain))
  {
    if b.shared {
      if Shares(es, chain, true) {
        SharesMore(es, e, chain, true);
      } else {
        SharesMore(es, e, chain, false);
      }
    } else {
      ScanOne(es, e, chain, true, b.inbound);
      ScanOne(es, e, chain, false, b.outbound);
    }
  }

  ghost predicate IdsNonEmpty(es: seq<EdgeSpec>) {
    forall i :: 0 <= i < |es| ==> es[i].id != ""
  }

  lemma {:induction false} EdgesHaveIds(g: GraphSpec)
    requires g.Valid()
    ensures IdsNonEmpty(g.edges)
  {
    forall i | 0 <= i < |g.edges| ensures g.edges[i].id != "" {
      assert g.edges[i] in g.edges;
    }
  }

  /** The scan over all edges that finds the two boundary edges. */
  method FindBoundary(g: GraphSpec, chain: seq<Id>) returns (s: Status, b: Boundary)
    requires g.Lists() && IdsNonEmpty(g.edges) && chain != [] && NoRepeats(chain)
    ensures s.Ok? ==> InnerSteps(g.edges, chain) && !b.shared && b.inbound != "" && b.outbound != ""
    ensures !s.Ok? ==> !InnerSteps(g.edges, chain) || b.shared || b.inbound == "" || b.outbound == ""
    ensures InnerSteps(g.edges, chain) ==> BoundaryOf(g.edges, chain, b)
  {
    b := Boundary("", "", false);
    for i := 0 to |g.edges|
      invariant InnerSteps(g.edges[..i], chain)
      invariant BoundaryOf(g.edges[..i], chain, b)
    {
      var e := g.edges[i];
      assert g.edges[..i + 1] == g.edges[..i] + [e];
      NoteCrossingOk(g.edges[..i], e, chain, b);
      if e.from.node in chain && e.to.node in chain {
        var forward := StepsForward(e, chain);
        if !forward {
          return GraphInvalid, b;
        }
      }
      b := NoteCrossing(b, e, chain);
    }
    assert g.edges[..|g.edges|] == g.edges;
    s := if b.shared then SharedDependency else if b.inbound == "" || b.outbound == "" then GraphInvalid else Ok;
  }

  lemma {:induction false} InnerStepsIff(es: seq<EdgeSpec>, g: Graph, chain: seq<Id>)
    requires ListsEdges(es, g.edges)
    ensures InnerSteps(es, chain) <==> M.InnerLinear(g, chain)
  {
    if InnerSteps(es, chain) {
      forall e | e in g.edges && g.edges[e].from.node in chain && g.edges[e].to.node in chain
        ensures M.Consecutive(chain, g.edges[e].from.node, g.edges[e].to.node)
      {
        assert g.edges[e] in es;
      }
    }
    if M.InnerLinear(g, chain) {
      forall j | 0 <= j < |es| && es[j].from.node in chain && es[j].to.node in chain
        ensures M.Consecutive(chain, es[j].from.node, es[j].to.node)
      {
        assert es[j] in es;
      }
    }
  }

  lemma {:induction false} BoundaryIff(es: seq<EdgeSpec>, g: Graph, chain: seq<Id>, b: Boundary)
    requires chain != [] && ListsEdges(es, g.edges) && BoundaryOf(es, chain, b)
    ensures !b.shared && b.inbound != "" && b.outbound != "" ==> Sole(g, chain, true, b.inbound) && Sole(g, chain, false, b.outbound)
    ensures b.shared || b.inbound == "" || b.outbound == "" ==> forall i, o :: !(Sole(g, chain, true, i) && Sole(g, chain, false, o))
  {
    if b.shared {
      forall i, o ensures !(Sole(g, chain, true, i) && Sole(g, chain, false, o)) {
        if Shares(es, chain, true) {
          SharesAll(es, g, chain, true, i);
        } else {
          SharesAll(es, g, chain, false, o);
        }
      }
    } else {
      ScannedAll(es, g, chain, true, b.inbound);
      ScannedAll(es, g, chain, false, b.outbound);
    }
  }

  /** Accepts exactly the linear chains, and then returns the two boundary edges. */
  method CheckLinearChain(g: GraphSpec, chain: seq<Id>) returns (s: Status, b: Boundary)
    requires g.Valid()
    ensures s.Ok? ==> M.IsLinearChain(g.model, chain, b.inbound, b.outbound)
    ensures !s.Ok? ==> forall i, o :: !M.IsLinearChain(g.model, chain, i, o)
  {
    b := Boundary("", "", false);
    if chain == [] {
      return GraphInvalid, b;
    }
    s := CheckMembers(g, chain);
    if !s.Ok? {
      return;
    }
    var linked := CheckLinks(g, chain);
    if !linked {
      return GraphInvalid, b;
    }
    EdgesHaveIds(g);
    s, b := FindBoundary(g, chain);
    InnerStepsIff(g.edges, g.model, chain);
    if InnerSteps(g.edges, chain) {
      BoundaryIff(g.edges, g.model, chain, b);
    }
    forall i, o | M.IsLinearChain(g.model, chain, i, o)
      ensures Sole(g.model, chain, true, i) && Sole(g.model, chain, false, o)
    {
    }
  }

  predicate CrossesSelection(e: EdgeSpec, selection: seq<Id>, entries: seq<Id>) {
    e.id !in entries && (e.from.node in selection) != (e.to.node in selection)
  }

  /** Every edge that ties the selection to the rest of the graph, entry edges aside. */
  method FindSharedDependencies(g: GraphSpec, selection: seq<Id>, entries: seq<Id>) returns (deps: seq<EdgeSpec>)
    requires g.Lists()
    ensures forall e :: e in deps <==> e in g.edges && CrossesSelection(e, selection, entries)
    ensures deps == [] <==> M.Exclusive(g.model, M.Elements(selection), entries)
  {
    deps := [];
    for i := 0 to |g.edges|
      invariant forall e :: e in deps <==> e in g.edges[..i] && CrossesSelection(e, selection, entries)
    {
      if CrossesSelection(g.edges[i], selection, entries) {
        deps := deps + [g.edges[i]];
      }
    }
    NoDependencies(g, selection, entries, deps);
  }

  lemma {:induction false} NoDependencies(g: GraphSpec, selection: seq<Id>, entries: seq<Id>, deps: seq<EdgeSpec>)
    requires g.Lists()
    requires forall e :: e in deps <==> e in g.edges && CrossesSelection(e, selection, entries)
    ensures deps == [] <==> M.Exclusive(g.model, M.Elements(selection), entries)
  {
    if deps == [] {
      forall e | e in g.model.edges ensures !CrossesSelection(g.model.edges[e], selection, entries) {
        assert g.model.edges[e] in g.edges;
      }
    } else {
      assert deps[0] in deps;
    }
  }
}
