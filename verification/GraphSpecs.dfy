/**
 * GraphSpec as the source keeps it: two vectors in declaration order, edited in
 * place. The ghost field `model` is the graph they stand for.
 */
module GraphSpecs {
  import opened Wrappers
  import opened GraphModel

  ghost predicate UniqueNodes(ns: seq<NodeSpec>) {
    forall i, j :: 0 <= i < j < |ns| ==> ns[i].id != ns[j].id
  }

  ghost predicate UniqueEdges(es: seq<EdgeSpec>) {
    forall i, j :: 0 <= i < j < |es| ==> es[i].id != es[j].id
  }

  /** The vector lists exactly the entries of the map. */
  ghost predicate ListsNodes(ns: seq<NodeSpec>, m: map<Id, NodeSpec>) {
    && UniqueNodes(ns)
    && (forall n :: n in m ==> m[n].id == n && m[n] in ns)
    && (forall x :: x in ns ==> x.id in m && m[x.id] == x)
  }

  ghost predicate ListsEdges(es: seq<EdgeSpec>, m: map<Id, EdgeSpec>) {
    && UniqueEdges(es)
    && (forall e :: e in m ==> m[e].id == e && m[e] in es)
    && (forall x :: x in es ==> x.id in m && m[x.id] == x)
  }

  lemma {:induction false} DropNode(ns: seq<NodeSpec>, m: map<Id, NodeSpec>, k: nat)
    requires ListsNodes(ns, m) && k < |ns|
    ensures ListsNodes(Without(ns, k), m - {ns[k].id})
  {
    var r := Without(ns, k);
    assert UniqueNodes(r);
    forall x | x in r ensures x.id != ns[k].id {
      assert x in ns[..k] || x in ns[k + 1..];
    }
  }

  lemma {:induction false} DropEdge(es: seq<EdgeSpec>, m: map<Id, EdgeSpec>, k: nat)
    requires ListsEdges(es, m) && k < |es|
    ensures ListsEdges(Without(es, k), m - {es[k].id})
  {
    var r := Without(es, k);
    assert UniqueEdges(r);
    forall x | x in r ensures x.id != es[k].id {
      assert x in es[..k] || x in es[k + 1..];
    }
  }

  lemma {:induction false} AppendNode(ns: seq<NodeSpec>, m: map<Id, NodeSpec>, n: NodeSpec)
    requires ListsNodes(ns, m) && n.id !in m
    ensures ListsNodes(ns + [n], m[n.id := n])
  {
    forall i | 0 <= i < |ns| ensures ns[i].id != n.id {
      assert ns[i] in ns;
    }
  }

  lemma {:induction false} AppendEdge(es: seq<EdgeSpec>, m: map<Id, EdgeSpec>, e: EdgeSpec)
    requires ListsEdges(es, m) && e.id !in m
    ensures ListsEdges(es + [e], m[e.id := e])
  {
    forall i | 0 <= i < |es| ensures es[i].id != e.id {
      assert es[i] in es;
    }
  }

  ghost predicate Before<T>(all: seq<T>, x: T, y: T) {
    exists k, l :: 0 <= k < l < |all| && all[k] == x && all[l] == y
  }

  /** The elements of one list stand in another in the same order. */
  ghost predicate KeepsOrder<T>(all: seq<T>, some: seq<T>) {
    && (forall x :: x in some ==> x in all)
    && forall i, j :: 0 <= i < j < |some| ==> Before(all, some[i], some[j])
  }

  lemma {:induction false} KeepsOrderMore<T>(all: seq<T>, some: seq<T>, x: T)
    requires KeepsOrder(all, some)
    ensures KeepsOrder(all + [x], some) && KeepsOrder(all + [x], some + [x])
  {
    var more := all + [x];
    forall i, j | 0 <= i < j < |some| ensures Before(more, some[i], some[j]) {
      assert Before(all, some[i], some[j]);
      var k, l :| 0 <= k < l < |all| && all[k] == some[i] && all[l] == some[j];
      assert more[k] == some[i] && more[l] == some[j];
    }
    forall i | 0 <= i < |some| ensures Before(more, some[i], x) {
      assert some[i] in all;
      var k :| 0 <= k < |all| && all[k] == some[i];
      assert more[k] == some[i] && more[|all|] == x;
    }
  }

  lemma {:induction false} WithoutKeepsOrder<T>(all: seq<T>, k: nat)
    requires k < |all|
    ensures KeepsOrder(all, Without(all, k))
  {
    var some := Without(all, k);
    forall i, j | 0 <= i < j < |some| ensures Before(all, some[i], some[j]) {
      var x, y := if i < k then i else i + 1, if j < k then j else j + 1;
      assert all[x] == some[i] && all[y] == some[j];
    }
  }

  lemma {:induction false} AwayFromKeepsOrder(es: seq<EdgeSpec>, id: Id)
    ensures KeepsOrder(es, AwayFrom(es, id))
  {
    if es != [] {
      var front, last := es[..|es| - 1], es[|es| - 1];
      assert front + [last] == es;
      AwayFromKeepsOrder(front, id);
      KeepsOrderMore(front, AwayFrom(front, id), last);
    }
  }

  /** The edges that do not end at node id, in order. */
  function AwayFrom(es: seq<EdgeSpec>, id: Id): (r: seq<EdgeSpec>)
    ensures forall e :: e in r <==> e in es && !Ends(e, id)
  {
    if es == [] then []
    else AwayFrom(es[..|es| - 1], id) + if Ends(es[|es| - 1], id) then [] else [es[|es| - 1]]
  }

  lemma {:induction false} AwayFromUnique(es: seq<EdgeSpec>, id: Id)
    requires UniqueEdges(es)
    ensures UniqueEdges(AwayFrom(es, id))
  {
    if es != [] {
      var front := es[..|es| - 1];
      AwayFromUnique(front, id);
      var r := AwayFrom(front, id);
      forall i | 0 <= i < |r| ensures r[i].id != es[|es| - 1].id {
        assert r[i] in front;
      }
    }
  }

  lemma {:induction false} AwayFromLists(es: seq<EdgeSpec>, g: Graph, id: Id)
    requires ListsEdges(es, g.edges)
    ensures ListsEdges(AwayFrom(es, id), g.edges - Incident(g, id))
  {
    AwayFromUnique(es, id);
  }

  /** The two ends of an edge, written out. */
  function EndsJoined(e: EdgeSpec): string {
    e.from.node + "." + e.from.port + "->" + e.to.node + "." + e.to.port
  }

  class GraphSpec {
    var nodes: seq<NodeSpec>
    var edges: seq<EdgeSpec>
    ghost var model: Graph

    ghost predicate Lists()
      reads this
    {
      ListsNodes(nodes, model.nodes) && ListsEdges(edges, model.edges)
    }

    ghost predicate Valid()
      reads this
    {
      Lists() && WellFormed(model)
    }

    constructor ()
      ensures Valid() && model == Graph(map[], map[])
    {
      nodes, edges, model := [], [], Graph(map[], map[]);
    }

    constructor Copy(g: GraphSpec)
      requires g.Valid()
      ensures Valid() && nodes == g.nodes && edges == g.edges && model == g.model
    {
      nodes, edges, model := g.nodes, g.edges, g.model;
    }

    method IndexOfNode(id: Id) returns (k: nat)
      requires Lists()
      ensures k <= |nodes|
      ensures k < |nodes| ==> nodes[k].id == id
      ensures k < |nodes| <==> id in model.nodes
    {
      for i := 0 to |nodes|
        invariant forall j :: 0 <= j < i ==> nodes[j].id != id
      {
        if nodes[i].id == id {
          assert nodes[i] in nodes;
          return i;
        }
      }
      return |nodes|;
    }

    method IndexOfEdge(id: Id) returns (k: nat)
      requires Lists()
      ensures k <= |edges|
      ensures k < |edges| ==> edges[k].id == id
      ensures k < |edges| <==> id in model.edges
    {
      for i := 0 to |edges|
        invariant forall j :: 0 <= j < i ==> edges[j].id != id
      {
        if edges[i].id == id {
          assert edges[i] in edges;
          return i;
        }
      }
      return |edges|;
    }

    method FindNode(id: Id) returns (r: Option<NodeSpec>)
      requires Lists()
      ensures r == if id in model.nodes then Some(model.nodes[id]) else None
    {
      var k := IndexOfNode(id);
      if k < |nodes| {
        assert nodes[k] in nodes;
        return Some(nodes[k]);
      }
      return None;
    }

    method FindEdge(id: Id) returns (r: Option<EdgeSpec>)
      requires Lists()
      ensures r == if id in model.edges then Some(model.edges[id]) else None
    {
      var k := IndexOfEdge(id);
      if k < |edges| {
        assert edges[k] in edges;
        return Some(edges[k]);
      }
      return None;
    }

    method AddNode(node: NodeSpec) returns (s: Status)
      requires Valid()
      modifies this
      ensures Valid()
      ensures s.Ok? <==> GraphModel.AddNode(old(model), node).Some?
      ensures s.Ok? ==> Some(model) == GraphModel.AddNode(old(model), node)
      ensures !s.Ok? ==> model == old(model)
      ensures s.Ok? <==>
                && IsValidStableId(node.id) && (forall n :: n in old(nodes) ==> n.id != node.id)
                && node.op.typeName != "" && node.parallelism != 0
                && (node.executor.kind.Gpu? || node.executor.deviceId.None?)
      ensures s.Ok? ==> nodes == old(nodes) + [node] && edges == old(edges)
      ensures !s.Ok? ==> nodes == old(nodes) && edges == old(edges)
      ensures s.AlreadyExists? <==> IsValidStableId(node.id) && exists n :: n in old(nodes) && n.id == node.id
      ensures s.Ok? || s.AlreadyExists? || s.GraphInvalid?
    {
      if !IsValidStableId(node.id) {
        return GraphInvalid;
      }
      var k := IndexOfNode(node.id);
      if k < |nodes| {
        return AlreadyExists;
      }
      if node.op.typeName == "" || node.parallelism == 0 {
        return GraphInvalid;
      }
      if node.executor.kind != Gpu && node.executor.deviceId.Some? {
        return GraphInvalid;
      }
      AppendNode(nodes, model.nodes, node);
      AddNodeWellFormed(model, node);
      nodes := nodes + [node];
      model := model.(nodes := model.nodes[node.id := node]);
      return Ok;
    }

    method HasPair(e: EdgeSpec) returns (found: bool)
      requires Lists()
      ensures found <==> !PairFree(model, e)
    {
      for i := 0 to |edges|
        invariant forall j :: 0 <= j < i ==> !SamePair(edges[j], e)
      {
        if edges[i].from == e.from && edges[i].to == e.to {
          assert edges[i] in edges;
          assert SamePair(model.edges[edges[i].id], e);
          return true;
        }
      }
      return false;
    }

    method AddEdge(edge: EdgeSpec) returns (s: Status)
      requires Valid()
      modifies this
      ensures Valid()
      ensures s.Ok? <==> GraphModel.AddEdge(old(model), edge).Some?
      ensures s.Ok? ==> Some(model) == GraphModel.AddEdge(old(model), edge)
      ensures !s.Ok? ==> model == old(model)
      ensures var id := if edge.id != "" then edge.id else EndsJoined(edge);
              && (s.Ok? <==>
                    && (IsValidStableId(id) || id == EndsJoined(edge)) && (forall e :: e in old(edges) ==> e.id != id)
                    && (exists n :: n in old(nodes) && n.id == edge.from.node)
                    && (exists n :: n in old(nodes) && n.id == edge.to.node)
                    && edge.from.port != "" && edge.to.port != ""
                    && edge.queue.capacity != 0 && edge.queue.maxPacketBytes != Some(0)
                    && (forall e :: e in old(edges) ==> e.from != edge.from || e.to != edge.to))
              && (s.Ok? ==> edges == old(edges) + [edge.(id := id)] && nodes == old(nodes))
      ensures !s.Ok? ==> nodes == old(nodes) && edges == old(edges)
    {
      var e := WithId(edge);
      if !IsValidStableId(e.id) && e.id != DeriveEdgeId(e.from, e.to) {
        return GraphInvalid;
      }
      var k := IndexOfEdge(e.id);
      if k < |edges| {
        return AlreadyExists;
      }
      var from := IndexOfNode(e.from.node);
      var to := IndexOfNode(e.to.node);
      if from == |nodes| || to == |nodes| {
        return GraphInvalid;
      }
      if e.from.port == "" || e.to.port == "" || e.queue.capacity == 0 || e.queue.maxPacketBytes == Some(0) {
        return GraphInvalid;
      }
      var taken := HasPair(e);
      if taken {
        return AlreadyExists;
      }
      AppendEdge(edges, model.edges, e);
      AddEdgeWellFormed(model, edge);
      edges := edges + [e];
      model := model.(edges := model.edges[e.id := e]);
      return Ok;
    }

    method RemoveNode(id: Id) returns (s: Status)
      requires Valid()
      modifies this
      ensures Valid()
      ensures s.Ok? <==> id in old(model).nodes
      ensures s.Ok? ==> model == GraphModel.RemoveNode(old(model), id)
      ensures !s.Ok? ==> s.NotFound? && model == old(model) && nodes == old(nodes) && edges == old(edges)
      ensures s.Ok? ==> KeepsOrder(old(nodes), nodes) && forall n :: n in nodes <==> n in old(nodes) && n.id != id
      ensures s.Ok? ==>
                && KeepsOrder(old(edges), edges)
                && forall e :: e in edges <==> e in old(edges) && e.from.node != id && e.to.node != id
    {
      var k := IndexOfNode(id);
      if k == |nodes| {
        return NotFound;
      }
      DropNode(nodes, model.nodes, k);
      WithoutKeepsOrder(nodes, k);
      AwayFromKeepsOrder(edges, id);
      AwayFromLists(edges, model, id);
      RemoveNodeWellFormed(model, id);
      nodes, edges := Without(nodes, k), AwayFrom(edges, id);
      model := GraphModel.RemoveNode(model, id);
      return Ok;
    }

    method RemoveEdge(id: Id) returns (s: Status)
      requires Valid()
      modifies this
      ensures Valid()
      ensures s.Ok? <==> id in old(model).edges
      ensures s.Ok? ==> model == RemoveEdges(old(model), {id})
      ensures !s.Ok? ==> s.NotFound? && model == old(model) && edges == old(edges)
      ensures nodes == old(nodes)
      ensures s.Ok? ==> KeepsOrder(old(edges), edges) && forall e :: e in edges <==> e in old(edges) && e.id != id
    {
      var k := IndexOfEdge(id);
      if k == |edges| {
        return NotFound;
      }
      DropEdge(edges, model.edges, k);
      WithoutKeepsOrder(edges, k);
      RemoveEdgesWellFormed(model, {id});
      edges := Without(edges, k);
      model := RemoveEdges(model, {id});
      return Ok;
    }

    method EdgesFrom(id: Id) returns (out: seq<EdgeSpec>)
      requires Lists()
      ensures UniqueEdges(out)
      ensures forall e :: e in out <==> e in edges && e.from.node == id
      ensures KeepsOrder(edges, out)
    {
      out := [];
      for i := 0 to |edges|
        invariant forall e :: e in out <==> e in edges[..i] && e.from.node == id
        invariant UniqueEdges(out) && KeepsOrder(edges[..i], out)
      {
        assert edges[..i + 1] == edges[..i] + [edges[i]];
        KeepsOrderMore(edges[..i], out, edges[i]);
        if edges[i].from.node == id {
          out := out + [edges[i]];
        }
      }
      assert edges[..|edges|] == edges;
    }

    method EdgesTo(id: Id) returns (out: seq<EdgeSpec>)
      requires Lists()
      ensures UniqueEdges(out)
      ensures forall e :: e in out <==> e in edges && e.to.node == id
      ensures KeepsOrder(edges, out)
    {
      out := [];
      for i := 0 to |edges|
        invariant forall e :: e in out <==> e in edges[..i] && e.to.node == id
        invariant UniqueEdges(out) && KeepsOrder(edges[..i], out)
      {
        assert edges[..i + 1] == edges[..i] + [edges[i]];
        KeepsOrderMore(edges[..i], out, edges[i]);
        if edges[i].to.node == id {
          out := out + [edges[i]];
        }
      }
      assert edges[..|edges|] == edges;
    }
  }
}
