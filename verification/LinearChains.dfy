/** A linear chain is a string of nodes on edges, and nothing else is tied to it. */
module LinearChains {
  import opened Wrappers
  import opened GraphModel
  import opened MutationModel

  /**
   * The links run from outside through the nodes in order and out again, and
   * are all the edges that meet a node of the chain.
   */
  ghost predicate StrungOn(g: Graph, chain: seq<Id>, links: seq<Id>) {
    && chain != [] && NoRepeats(chain) && (forall k :: 0 <= k < |chain| ==> chain[k] in g.nodes)
    && |links| == |chain| + 1 && (forall k :: 0 <= k < |links| ==> links[k] in g.edges)
    && (forall k :: 0 <= k < |chain| ==> LinkAt(g, chain, links, k))
    && g.edges[links[0]].from.node !in chain && g.edges[links[|chain|]].to.node !in chain
    && (forall e :: e in g.edges && (g.edges[e].from.node in chain || g.edges[e].to.node in chain) ==> e in links)
  }

  ghost predicate LinkAt(g: Graph, chain: seq<Id>, links: seq<Id>, k: nat)
    requires k < |chain| && |links| == |chain| + 1 && forall i :: 0 <= i < |links| ==> links[i] in g.edges
  {
    g.edges[links[k]].to.node == chain[k] && g.edges[links[k + 1]].from.node == chain[k]
  }

  lemma {:induction false} OneBetween(es: set<Id>) returns (e: Id)
    requires |es| == 1
    ensures es == {e}
  {
    e :| e in es;
    assert |es - {e}| == 0;
  }

  /** The only edges from one node of the chain to the next. */
  lemma {:induction false} InnerLinks(g: Graph, chain: seq<Id>, n: nat) returns (links: seq<Id>)
    requires n < |chain| && forall i :: 0 <= i < |chain| - 1 ==> |Between(g, chain[i], chain[i + 1])| == 1
    ensures |links| == n && forall k :: 0 <= k < n ==> Between(g, chain[k], chain[k + 1]) == {links[k]}
  {
    links := [];
    if n > 0 {
      links := InnerLinks(g, chain, n - 1);
      var e := OneBetween(Between(g, chain[n - 1], chain[n]));
      links := links + [e];
    }
  }

  lemma {:induction false} LinearIsStrung(g: Graph, chain: seq<Id>, i: Id, o: Id) returns (links: seq<Id>)
    requires IsLinearChain(g, chain, i, o)
    ensures StrungOn(g, chain, links) && links[0] == i && links[|chain|] == o
  {
    var inner := InnerLinks(g, chain, |chain| - 1);
    links := [i] + inner + [o];
    forall k | 0 < k < |chain| ensures links[k] in Between(g, chain[k - 1], chain[k]) {
      assert links[k] == inner[k - 1];
      assert Between(g, chain[k - 1], chain[k - 1 + 1]) == {inner[k - 1]};
    }
    assert i in Entering(g, Elements(chain)) && o in Leaving(g, Elements(chain));
    forall k | 0 <= k < |links| ensures links[k] in g.edges {
      assert 0 < k < |chain| ==> links[k] in Between(g, chain[k - 1], chain[k]);
    }
    forall k | 0 <= k < |chain| ensures LinkAt(g, chain, links, k) {
      assert k > 0 ==> links[k] in Between(g, chain[k - 1], chain[k]);
      assert k + 1 < |chain| ==> links[k + 1] in Between(g, chain[k], chain[k + 1]);
    }
    forall e | e in g.edges && (g.edges[e].from.node in chain || g.edges[e].to.node in chain) ensures e in links {
      MeetsInLinks(g, chain, i, o, inner, e);
    }
  }

  lemma {:induction false} MeetsInLinks(g: Graph, chain: seq<Id>, i: Id, o: Id, inner: seq<Id>, e: Id)
    requires IsLinearChain(g, chain, i, o) && |inner| == |chain| - 1
    requires forall k :: 0 <= k < |inner| ==> Between(g, chain[k], chain[k + 1]) == {inner[k]}
    requires e in g.edges && (g.edges[e].from.node in chain || g.edges[e].to.node in chain)
    ensures e in [i] + inner + [o]
  {
    var a, b := g.edges[e].from.node, g.edges[e].to.node;
    if a !in chain {
      assert e in Entering(g, Elements(chain));
    } else if b !in chain {
      assert e in Leaving(g, Elements(chain));
    } else {
      assert Consecutive(chain, a, b);
      var k :| 0 <= k < |chain| - 1 && chain[k] == a && chain[k + 1] == b;
      assert e in Between(g, chain[k], chain[k + 1]);
      assert e == inner[k];
    }
  }

  /** Which link an edge of the chain is follows from its ends. */
  lemma {:induction false} LinkOf(g: Graph, chain: seq<Id>, links: seq<Id>, k: nat)
    requires StrungOn(g, chain, links) && k <= |chain|
    ensures links[k] in g.edges
    ensures k < |chain| ==> g.edges[links[k]].to.node == chain[k]
    ensures k > 0 ==> g.edges[links[k]].from.node == chain[k - 1]
    ensures g.edges[links[k]].from.node in chain <==> k > 0
    ensures g.edges[links[k]].to.node in chain <==> k < |chain|
  {
    if k < |chain| {
      assert LinkAt(g, chain, links, k);
    }
    if k > 0 {
      assert LinkAt(g, chain, links, k - 1);
    }
  }

  lemma {:induction false} LinkWith(g: Graph, chain: seq<Id>, links: seq<Id>, e: Id) returns (k: nat)
    requires StrungOn(g, chain, links) && e in g.edges
    requires g.edges[e].from.node in chain || g.edges[e].to.node in chain
    ensures k <= |chain| && links[k] == e
  {
    assert e in links;
    k :| 0 <= k < |links| && links[k] == e;
  }

  lemma {:induction false} StrungBetween(g: Graph, chain: seq<Id>, links: seq<Id>, k: nat)
    requires StrungOn(g, chain, links) && k < |chain| - 1
    ensures Between(g, chain[k], chain[k + 1]) == {links[k + 1]}
  {
    LinkOf(g, chain, links, k + 1);
    var es := Between(g, chain[k], chain[k + 1]);
    forall e | e in es ensures e == links[k + 1] {
      var l := LinkWith(g, chain, links, e);
      LinkOf(g, chain, links, l);
      assert chain[l - 1] == chain[k];
    }
  }

  lemma {:induction false} StrungBoundary(g: Graph, chain: seq<Id>, links: seq<Id>)
    requires StrungOn(g, chain, links)
    ensures Entering(g, Elements(chain)) == {links[0]} && Leaving(g, Elements(chain)) == {links[|chain|]}
  {
    LinkOf(g, chain, links, 0);
    LinkOf(g, chain, links, |chain|);
    forall e | e in Entering(g, Elements(chain)) ensures e == links[0] {
      var l := LinkWith(g, chain, links, e);
      LinkOf(g, chain, links, l);
    }
    forall e | e in Leaving(g, Elements(chain)) ensures e == links[|chain|] {
      var l := LinkWith(g, chain, links, e);
      LinkOf(g, chain, links, l);
    }
  }

  lemma {:induction false} StrungIsLinear(g: Graph, chain: seq<Id>, links: seq<Id>)
    requires StrungOn(g, chain, links)
    ensures IsLinearChain(g, chain, links[0], links[|chain|])
  {
    StrungBoundary(g, chain, links);
    LinkOf(g, chain, links, 0);
    LinkOf(g, chain, links, |chain|);
    forall k | 0 <= k < |chain| - 1 ensures |Between(g, chain[k], chain[k + 1])| == 1 {
      StrungBetween(g, chain, links, k);
    }
    forall e | e in g.edges && g.edges[e].from.node in chain && g.edges[e].to.node in chain
      ensures Consecutive(chain, g.edges[e].from.node, g.edges[e].to.node)
    {
      var l := LinkWith(g, chain, links, e);
      LinkOf(g, chain, links, l);
      assert chain[l - 1] == g.edges[e].from.node && chain[l - 1 + 1] == g.edges[e].to.node;
    }
  }

  /** What the linear chain check accepts are exactly the strings of nodes, with their first and last link. */
  lemma {:induction false} LinearIffStrung(g: Graph, chain: seq<Id>, i: Id, o: Id)
    ensures IsLinearChain(g, chain, i, o) <==>
            exists links :: StrungOn(g, chain, links) && links[0] == i && links[|chain|] == o
  {
    if IsLinearChain(g, chain, i, o) {
      var links := LinearIsStrung(g, chain, i, o);
    }
    if links :| StrungOn(g, chain, links) && links[0] == i && links[|chain|] == o {
      StrungIsLinear(g, chain, links);
    }
  }
}
