/**
 * remove_branch said on the graph alone: a branch is what the entry edges are
 * the only way into, and everything in it is fed through them.
 */
module BranchRemoval {
  import opened Wrappers
  import opened GraphModel
  import opened MutationModel
  import ClosedForms
  import A = MutationActions

  /** The single entry edge counts only when no list is given. */
  predicate IsEntry(a: Action, e: Id)
    requires a.RemoveBranchAction?
  {
    if a.entryEdges == [] then e == a.entryEdge else e in a.entryEdges
  }

  /** With the nodes the entry edges lead to, some holds every branch node that one of its nodes feeds. */
  ghost predicate Absorbs(g: Graph, a: Action, some: set<Id>)
    requires a.RemoveBranchAction?
  {
    && (forall e :: e in g.edges && IsEntry(a, e) ==> g.edges[e].to.node in some)
    && (forall e :: e in g.edges && g.edges[e].from.node in some && g.edges[e].to.node in a.nodes ==>
          g.edges[e].to.node in some)
  }

  ghost predicate AllFed(g: Graph, a: Action)
    requires a.RemoveBranchAction?
  {
    forall some :: Absorbs(g, a, some) ==> forall n :: n in a.nodes ==> n in some
  }

  ghost predicate EntriesLeadIn(g: Graph, a: Action)
    requires a.RemoveBranchAction?
  {
    forall e :: IsEntry(a, e) ==> e in g.edges && g.edges[e].from.node !in a.nodes && g.edges[e].to.node in a.nodes
  }

  ghost predicate NothingElseCrosses(g: Graph, a: Action)
    requires a.RemoveBranchAction?
  {
    forall e :: e in g.edges && (g.edges[e].from.node in a.nodes <==> g.edges[e].to.node !in a.nodes) ==> IsEntry(a, e)
  }

  ghost predicate IsBranch(g: Graph, a: Action)
    requires a.RemoveBranchAction?
  {
    && a.nodes != [] && NoRepeats(a.nodes) && (forall n :: n in a.nodes ==> n in g.nodes)
    && EntriesLeadIn(g, a) && NothingElseCrosses(g, a) && AllFed(g, a)
  }

  lemma {:induction false} WalkAbsorbed(g: Graph, a: Action, starts: set<Id>, walk: seq<Id>, some: set<Id>)
    requires a.RemoveBranchAction? && Absorbs(g, a, some) && starts <= some
    requires IsWalk(g, Elements(a.nodes), walk) && walk != [] && walk[0] in starts
    ensures walk[|walk| - 1] in some
  {
    if |walk| > 1 {
      var front := walk[..|walk| - 1];
      assert forall i :: 0 <= i < |front| ==> front[i] == walk[i];
      assert forall i :: 0 <= i < |front| - 1 ==> Hop(g, front[i], front[i + 1]);
      WalkAbsorbed(g, a, starts, front, some);
      var m := |walk| - 2;
      assert Hop(g, walk[m], walk[m + 1]);
      var e :| e in Between(g, walk[m], walk[m + 1]);
      assert g.edges[e].to.node in a.nodes;
    }
  }

  lemma {:induction false} TargetIff(g: Graph, a: Action, n: Id)
    requires a.RemoveBranchAction? && EntriesLeadIn(g, a)
    ensures forall i :: 0 <= i < |EntryEdges(a)| ==> IsEntry(a, EntryEdges(a)[i])
    ensures n in Targets(g, EntryEdges(a)) <==> exists e :: IsEntry(a, e) && g.edges[e].to.node == n
  {
    var es := EntryEdges(a);
    forall e | IsEntry(a, e) ensures e in es {
    }
    if e :| IsEntry(a, e) && g.edges[e].to.node == n {
      var i :| 0 <= i < |es| && es[i] == e;
    }
  }

  lemma {:induction false} ReachableAbsorbs(g: Graph, a: Action) returns (some: set<Id>)
    requires a.RemoveBranchAction? && EntriesLeadIn(g, a)
    ensures Absorbs(g, a, some)
    ensures forall n :: n in some ==>
              EntriesEnter(g, Elements(a.nodes), EntryEdges(a))
              && ReachableWithin(g, Elements(a.nodes), Targets(g, EntryEdges(a)), n)
  {
    var sel := Elements(a.nodes);
    TargetIff(g, a, "");
    var starts := Targets(g, EntryEdges(a));
    some := set n | n in sel && ReachableWithin(g, sel, starts, n);
    forall e | e in g.edges && IsEntry(a, e) ensures g.edges[e].to.node in some {
      TargetIff(g, a, g.edges[e].to.node);
      A.StartReachable(g, sel, starts, g.edges[e].to.node);
    }
    forall e | e in g.edges && g.edges[e].from.node in some && g.edges[e].to.node in a.nodes
      ensures g.edges[e].to.node in some
    {
      assert e in Between(g, g.edges[e].from.node, g.edges[e].to.node);
      A.HopReachable(g, sel, starts, g.edges[e].from.node, g.edges[e].to.node);
    }
  }

  lemma {:induction false} ReachableIffFed(g: Graph, a: Action)
    requires a.RemoveBranchAction? && EntriesLeadIn(g, a)
    requires EntriesEnter(g, Elements(a.nodes), EntryEdges(a))
    ensures AllFed(g, a) <==>
            forall i :: 0 <= i < |a.nodes| ==>
              ReachableWithin(g, Elements(a.nodes), Targets(g, EntryEdges(a)), a.nodes[i])
  {
    var sel, starts := Elements(a.nodes), Targets(g, EntryEdges(a));
    if AllFed(g, a) {
      var some := ReachableAbsorbs(g, a);
      assert Absorbs(g, a, some);
    }
    if forall i :: 0 <= i < |a.nodes| ==> ReachableWithin(g, sel, starts, a.nodes[i]) {
      forall some, n | Absorbs(g, a, some) && n in a.nodes ensures n in some {
        var i :| 0 <= i < |a.nodes| && a.nodes[i] == n;
        var walk :| WalkTo(g, sel, starts, walk, a.nodes[i]);
        forall s | s in starts ensures s in some {
          TargetIff(g, a, s);
        }
        WalkAbsorbed(g, a, starts, walk, some);
      }
    }
  }

  lemma {:induction false} GuardIff(g: Graph, a: Action)
    requires a.RemoveBranchAction?
    ensures EntriesEnter(g, Elements(a.nodes), EntryEdges(a)) <==> EntriesLeadIn(g, a)
    ensures Exclusive(g, Elements(a.nodes), EntryEdges(a)) <==> NothingElseCrosses(g, a)
  {
    var es := EntryEdges(a);
    assert forall e :: IsEntry(a, e) <==> e in es;
    if EntriesEnter(g, Elements(a.nodes), es) {
      forall e | IsEntry(a, e)
        ensures e in g.edges && g.edges[e].from.node !in a.nodes && g.edges[e].to.node in a.nodes
      {
        var i :| 0 <= i < |es| && es[i] == e;
      }
    }
  }

  /**
   * A branch removal is accepted exactly on a branch, and takes away its nodes
   * with every edge that meets one of them.
   */
  lemma {:induction false} RemoveBranchIff(r: Resolver, c: Candidate, a: Action, default: RemovePolicy)
    requires a.RemoveBranchAction?
    ensures ApplyOne(r, c, a, default).Some? <==> IsBranch(c.graph, a)
    ensures ApplyOne(r, c, a, default).Some? ==>
              var h := ApplyOne(r, c, a, default).value.graph;
              && (forall n :: n in h.nodes <==> n in c.graph.nodes && n !in a.nodes)
              && (forall n :: n in h.nodes ==> h.nodes[n] == c.graph.nodes[n])
              && (forall e :: e in h.edges <==>
                    e in c.graph.edges && c.graph.edges[e].from.node !in a.nodes && c.graph.edges[e].to.node !in a.nodes)
              && (forall e :: e in h.edges ==> h.edges[e] == c.graph.edges[e])
  {
    var policy := PolicyOr(a.policy, default);
    A.BranchRemovalExact(c, a.nodes, EntryEdges(a), policy);
    GuardIff(c.graph, a);
    if EntriesLeadIn(c.graph, a) {
      ReachableIffFed(c.graph, a);
    }
  }
}
