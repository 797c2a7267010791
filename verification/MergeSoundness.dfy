/**
 * Merging queued patches is an optimisation: patches that apply alone to the
 * same base and have pairwise disjoint footprints can be concatenated, in any
 * order, and give the graph that applying them one after another gives.
 */
module MergeSoundness {
  import opened Wrappers
  import opened GraphModel
  import opened MutationModel
  import opened ChangeSets
  import opened Locality

  ghost predicate DisjointFootprints(c: Candidate, d: Candidate) {
    c.touchedNodes !! d.touchedNodes && c.touchedEdges !! d.touchedEdges
  }

  ghost predicate ApartFrom(fps: seq<Candidate>, f: Candidate) {
    forall i :: 0 <= i < |fps| ==> DisjointFootprints(fps[i], f)
  }

  ghost predicate PairwiseDisjoint(fps: seq<Candidate>) {
    forall i, j :: 0 <= i < j < |fps| ==> DisjointFootprints(fps[i], fps[j])
  }

  /** Every patch applies alone to base, giving the candidate of the same index. */
  ghost predicate ApplyAlone(r: Resolver, base: Graph, policy: RemovePolicy, ps: seq<Patch>, fps: seq<Candidate>) {
    && |ps| == |fps|
    && forall i :: 0 <= i < |ps| ==> ps[i].removePolicy == policy && Apply(r, base, ps[i]) == Some(fps[i])
  }

  function Concat(ps: seq<Patch>): seq<Action> {
    if ps == [] then [] else Concat(ps[..|ps| - 1]) + ps[|ps| - 1].actions
  }

  /** One patch at a time, each against the graph the previous one left. */
  ghost function ApplyInTurn(r: Resolver, base: Graph, ps: seq<Patch>): Option<Graph> {
    if ps == [] then Some(base) else
    var g :- ApplyInTurn(r, base, ps[..|ps| - 1]);
    var c :- Apply(r, g, ps[|ps| - 1]);
    Some(c.graph)
  }

  // -------------------------------------------------------------------------
  // What a merge must be, without reference to any order

  ghost predicate HasEffectOf(c: Candidate, g: Graph) {
    && (forall n :: n in c.touchedNodes ==> SameNode(c.graph, g, n))
    && (forall e :: e in c.touchedEdges ==> SameEdge(c.graph, g, e))
  }

  ghost predicate NodeUntouched(fps: seq<Candidate>, n: Id) {
    forall i :: 0 <= i < |fps| ==> n !in fps[i].touchedNodes
  }

  ghost predicate EdgeUntouched(fps: seq<Candidate>, e: Id) {
    forall i :: 0 <= i < |fps| ==> e !in fps[i].touchedEdges
  }

  /** g is base with the effect of every footprint, and nothing else. */
  ghost predicate IsMerge(base: Graph, fps: seq<Candidate>, g: Graph) {
    && (forall i :: 0 <= i < |fps| ==> HasEffectOf(fps[i], g))
    && (forall n :: NodeUntouched(fps, n) ==> SameNode(base, g, n))
    && (forall e :: EdgeUntouched(fps, e) ==> SameEdge(base, g, e))
  }

  lemma {:induction false} MergeNodesUnique(base: Graph, fps: seq<Candidate>, g: Graph, h: Graph)
    requires IsMerge(base, fps, g) && IsMerge(base, fps, h)
    ensures g.nodes == h.nodes
  {
    forall n ensures SameNode(g, h, n) {
      if i :| 0 <= i < |fps| && n in fps[i].touchedNodes {
        assert HasEffectOf(fps[i], g) && HasEffectOf(fps[i], h);
        assert SameNode(fps[i].graph, g, n) && SameNode(fps[i].graph, h, n);
      } else {
        assert NodeUntouched(fps, n);
        assert SameNode(base, g, n) && SameNode(base, h, n);
      }
    }
    assert forall n :: n in g.nodes <==> n in h.nodes by {
      forall n ensures n in g.nodes <==> n in h.nodes {
        assert SameNode(g, h, n);
      }
    }
    assert forall n :: n in g.nodes ==> g.nodes[n] == h.nodes[n] by {
      forall n | n in g.nodes ensures g.nodes[n] == h.nodes[n] {
        assert SameNode(g, h, n);
      }
    }
  }

  lemma {:induction false} MergeEdgesUnique(base: Graph, fps: seq<Candidate>, g: Graph, h: Graph)
    requires IsMerge(base, fps, g) && IsMerge(base, fps, h)
    ensures g.edges == h.edges
  {
    forall e ensures SameEdge(g, h, e) {
      if i :| 0 <= i < |fps| && e in fps[i].touchedEdges {
        assert HasEffectOf(fps[i], g) && HasEffectOf(fps[i], h);
        assert SameEdge(fps[i].graph, g, e) && SameEdge(fps[i].graph, h, e);
      } else {
        assert EdgeUntouched(fps, e);
        assert SameEdge(base, g, e) && SameEdge(base, h, e);
      }
    }
    assert forall e :: e in g.edges <==> e in h.edges by {
      forall e ensures e in g.edges <==> e in h.edges {
        assert SameEdge(g, h, e);
      }
    }
    assert forall e :: e in g.edges ==> g.edges[e] == h.edges[e] by {
      forall e | e in g.edges ensures g.edges[e] == h.edges[e] {
        assert SameEdge(g, h, e);
      }
    }
  }

  // -------------------------------------------------------------------------
  // Adding one more patch

  /** The union of the footprints. */
  ghost function AllNodes(fps: seq<Candidate>): (r: set<Id>)
    ensures forall n :: n in r <==> !NodeUntouched(fps, n)
  {
    if fps == [] then {} else
    var front := fps[..|fps| - 1];
    assert forall n :: NodeUntouched(fps, n) <==> NodeUntouched(front, n) && n !in fps[|fps| - 1].touchedNodes;
    AllNodes(front) + fps[|fps| - 1].touchedNodes
  }

  ghost function AllEdges(fps: seq<Candidate>): (r: set<Id>)
    ensures forall e :: e in r <==> !EdgeUntouched(fps, e)
  {
    if fps == [] then {} else
    var front := fps[..|fps| - 1];
    assert forall e :: EdgeUntouched(fps, e) <==> EdgeUntouched(front, e) && e !in fps[|fps| - 1].touchedEdges;
    AllEdges(front) + fps[|fps| - 1].touchedEdges
  }

  ghost predicate Good(base: Graph, fps: seq<Candidate>, g: Graph) {
    IsMerge(base, fps, g) && Framed(base, g, AllNodes(fps), AllEdges(fps))
  }

  /** Running the patch of footprint f on g reproduces f there, and touches nothing else. */
  lemma {:induction false} Replay(r: Resolver, base: Graph, p: Patch, f: Candidate, fps: seq<Candidate>, d: Candidate)
    requires WellFormed(base) && Apply(r, base, p) == Some(f)
    requires Framed(base, d.graph, AllNodes(fps), AllEdges(fps))
    requires ApartFrom(fps, f)
    ensures Mirrors(Start(base), Some(f), d, ApplyAll(r, d, p.actions, p.removePolicy), f.touchedNodes, f.touchedEdges)
  {
    FramedElsewhere(base, d.graph, f.touchedNodes, f.touchedEdges, AllNodes(fps), AllEdges(fps));
    ApplyAllLocal(r, Start(base), d, p.actions, p.removePolicy, f.touchedNodes, f.touchedEdges);
  }

  lemma {:induction false} ExtendMerge(base: Graph, fps: seq<Candidate>, f: Candidate, g: Graph, h: Graph)
    requires Good(base, fps, g)
    requires ApartFrom(fps, f)
    requires Agree(f.graph, h, f.touchedNodes, f.touchedEdges)
    requires Framed(g, h, f.touchedNodes, f.touchedEdges)
    ensures Good(base, fps + [f], h)
  {
    var all := fps + [f];
    assert all[..|all| - 1] == fps;
    FramedCompose(base, g, h, AllNodes(fps), AllEdges(fps), f.touchedNodes, f.touchedEdges);
    forall i | 0 <= i < |all| ensures HasEffectOf(all[i], h) {
      if i < |fps| {
        assert all[i] == fps[i] && DisjointFootprints(fps[i], f) && HasEffectOf(fps[i], g);
        forall n | n in fps[i].touchedNodes ensures SameNode(fps[i].graph, h, n) {
          assert SameNode(fps[i].graph, g, n) && SameNode(g, h, n);
        }
        forall e | e in fps[i].touchedEdges ensures SameEdge(fps[i].graph, h, e) {
          assert SameEdge(fps[i].graph, g, e) && SameEdge(g, h, e);
        }
      }
    }
    forall n | NodeUntouched(all, n) ensures SameNode(base, h, n) {
      assert n !in all[|fps|].touchedNodes;
      assert NodeUntouched(fps, n) by {
        assert forall i :: 0 <= i < |fps| ==> all[i] == fps[i];
      }
      assert SameNode(base, g, n) && SameNode(g, h, n);
    }
    forall e | EdgeUntouched(all, e) ensures SameEdge(base, h, e) {
      assert e !in all[|fps|].touchedEdges;
      assert EdgeUntouched(fps, e) by {
        assert forall i :: 0 <= i < |fps| ==> all[i] == fps[i];
      }
      assert SameEdge(base, g, e) && SameEdge(g, h, e);
    }
  }

  lemma {:induction false} ReplayMerge(r: Resolver, base: Graph, p: Patch, f: Candidate, fps: seq<Candidate>,
                                       d: Candidate)
    requires WellFormed(base) && Apply(r, base, p) == Some(f)
    requires Good(base, fps, d.graph) && ApartFrom(fps, f)
    ensures ApplyAll(r, d, p.actions, p.removePolicy).Some?
    ensures Good(base, fps + [f], ApplyAll(r, d, p.actions, p.removePolicy).value.graph)
  {
    Replay(r, base, p, f, fps, d);
    ExtendMerge(base, fps, f, d.graph, ApplyAll(r, d, p.actions, p.removePolicy).value.graph);
  }

  lemma {:induction false} ApplyAllAppend(r: Resolver, c: Candidate, xs: seq<Action>, ys: seq<Action>,
        policy: RemovePolicy)
    requires ApplyAll(r, c, xs, policy).Some?
    ensures ApplyAll(r, c, xs + ys, policy) == ApplyAll(r, ApplyAll(r, c, xs, policy).value, ys, policy)
  {
    if ys == [] {
      assert xs + ys == xs;
    } else {
      var front := ys[..|ys| - 1];
      assert (xs + ys)[..|xs + ys| - 1] == xs + front;
      ApplyAllAppend(r, c, xs, front, policy);
    }
  }

  lemma {:induction false} ConcatLast(r: Resolver, base: Graph, policy: RemovePolicy, ps: seq<Patch>, d: Candidate)
    requires ps != [] && ApplyAll(r, Start(base), Concat(ps[..|ps| - 1]), policy) == Some(d)
    ensures ApplyAll(r, Start(base), Concat(ps), policy) == ApplyAll(r, d, ps[|ps| - 1].actions, policy)
  {
    ApplyAllAppend(r, Start(base), Concat(ps[..|ps| - 1]), ps[|ps| - 1].actions, policy);
  }

  /** The last patch and the ones before it. */
  lemma {:induction false} SplitLast(r: Resolver, base: Graph, policy: RemovePolicy, ps: seq<Patch>,
        fps: seq<Candidate>)
    requires ApplyAlone(r, base, policy, ps, fps) && PairwiseDisjoint(fps) && ps != []
    ensures ApplyAlone(r, base, policy, ps[..|ps| - 1], fps[..|fps| - 1]) && PairwiseDisjoint(fps[..|fps| - 1])
    ensures ps[|ps| - 1].removePolicy == policy && Apply(r, base, ps[|ps| - 1]) == Some(fps[|fps| - 1])
    ensures ApartFrom(fps[..|fps| - 1], fps[|fps| - 1])
  {
  }

  // -------------------------------------------------------------------------
  // Main results

  lemma {:induction false} Reassembled<T>(xs: seq<T>)
    requires xs != []
    ensures xs[..|xs| - 1] + [xs[|xs| - 1]] == xs
  {
  }

  lemma {:induction false} MergeOfNone(base: Graph)
    ensures Good(base, [], base)
  {
  }

  function AllUpdates(fps: seq<Candidate>): seq<(Id, Json)> {
    if fps == [] then [] else AllUpdates(fps[..|fps| - 1]) + fps[|fps| - 1].parameterUpdates
  }

  /** d recorded what every footprint recorded, and nothing else. */
  ghost predicate MergedTracks(base: Graph, fps: seq<Candidate>, d: Candidate) {
    && (forall i :: 0 <= i < |fps| ==> SameTracks(fps[i], d, fps[i].touchedNodes, fps[i].touchedEdges))
    && (forall n :: NodeUntouched(fps, n) ==> SameNodeTrack(Start(base), d, n))
    && (forall e :: EdgeUntouched(fps, e) ==> SameEdgeTrack(Start(base), d, e))
    && d.parameterUpdates == AllUpdates(fps)
  }

  lemma {:induction false} UntouchedApart(fps: seq<Candidate>, f: Candidate)
    requires ApartFrom(fps, f)
    ensures forall n :: n in f.touchedNodes ==> NodeUntouched(fps, n)
    ensures forall e :: e in f.touchedEdges ==> EdgeUntouched(fps, e)
  {
    forall n | n in f.touchedNodes ensures NodeUntouched(fps, n) {
      forall i | 0 <= i < |fps| ensures n !in fps[i].touchedNodes {
        assert DisjointFootprints(fps[i], f);
      }
    }
    forall e | e in f.touchedEdges ensures EdgeUntouched(fps, e) {
      forall i | 0 <= i < |fps| ensures e !in fps[i].touchedEdges {
        assert DisjointFootprints(fps[i], f);
      }
    }
  }

  /** A footprint recorded before is still recorded after one apart from it. */
  lemma {:induction false} TracksSurvive(c: Candidate, d: Candidate, d': Candidate, f: Candidate)
    requires SameTracks(c, d, c.touchedNodes, c.touchedEdges) && DisjointFootprints(c, f)
    requires FramedTracks(d, d', f.touchedNodes, f.touchedEdges)
    ensures SameTracks(c, d', c.touchedNodes, c.touchedEdges)
  {
    forall n | n in c.touchedNodes ensures SameNodeTrack(c, d', n) {
      assert SameNodeTrack(c, d, n) && SameNodeTrack(d, d', n);
    }
    forall e | e in c.touchedEdges ensures SameEdgeTrack(c, d', e) {
      assert SameEdgeTrack(c, d, e) && SameEdgeTrack(d, d', e);
    }
  }

  lemma {:induction false} ExtendTracks(base: Graph, fps: seq<Candidate>, f: Candidate, d: Candidate, d': Candidate)
    requires MergedTracks(base, fps, d) && ApartFrom(fps, f)
    requires SameChanges(Start(base), f, d, d', f.touchedNodes, f.touchedEdges)
    ensures MergedTracks(base, fps + [f], d')
  {
    var all := fps + [f];
    assert all[..|all| - 1] == fps;
    UntouchedApart(fps, f);
    assert SameTracks(Start(base), d, f.touchedNodes, f.touchedEdges);
    forall i | 0 <= i < |all| ensures SameTracks(all[i], d', all[i].touchedNodes, all[i].touchedEdges) {
      if i < |fps| {
        assert all[i] == fps[i] && DisjointFootprints(fps[i], f);
        TracksSurvive(fps[i], d, d', f);
      }
    }
    assert forall i :: 0 <= i < |fps| ==> all[i] == fps[i];
    forall n | NodeUntouched(all, n) ensures SameNodeTrack(Start(base), d', n) {
      assert n !in all[|fps|].touchedNodes && NodeUntouched(fps, n);
      assert SameNodeTrack(Start(base), d, n) && SameNodeTrack(d, d', n);
    }
    forall e | EdgeUntouched(all, e) ensures SameEdgeTrack(Start(base), d', e) {
      assert e !in all[|fps|].touchedEdges && EdgeUntouched(fps, e);
      assert SameEdgeTrack(Start(base), d, e) && SameEdgeTrack(d, d', e);
    }
    assert d'.parameterUpdates == d.parameterUpdates + f.parameterUpdates;
  }

  lemma {:induction false} ReplayTracks(r: Resolver, base: Graph, p: Patch, f: Candidate, fps: seq<Candidate>,
                                        d: Candidate)
    requires WellFormed(base) && Apply(r, base, p) == Some(f)
    requires Good(base, fps, d.graph) && MergedTracks(base, fps, d) && ApartFrom(fps, f)
    ensures ApplyAll(r, d, p.actions, p.removePolicy).Some?
    ensures MergedTracks(base, fps + [f], ApplyAll(r, d, p.actions, p.removePolicy).value)
  {
    Replay(r, base, p, f, fps, d);
    ExtendTracks(base, fps, f, d, ApplyAll(r, d, p.actions, p.removePolicy).value);
  }

  /** Both halves: the graph and the change sets. */
  ghost predicate Merged(base: Graph, fps: seq<Candidate>, d: Candidate) {
    Good(base, fps, d.graph) && MergedTracks(base, fps, d)
  }

  lemma {:induction false} MergedStart(base: Graph)
    ensures Merged(base, [], Start(base))
  {
    MergeOfNone(base);
  }

  lemma {:induction false} MergedMore(r: Resolver, base: Graph, p: Patch, f: Candidate, fps: seq<Candidate>,
                                      d: Candidate)
    requires WellFormed(base) && Apply(r, base, p) == Some(f) && Merged(base, fps, d) && ApartFrom(fps, f)
    ensures ApplyAll(r, d, p.actions, p.removePolicy).Some?
    ensures Merged(base, fps + [f], ApplyAll(r, d, p.actions, p.removePolicy).value)
  {
    ReplayMerge(r, base, p, f, fps, d);
    ReplayTracks(r, base, p, f, fps, d);
  }

  lemma {:induction false} MergeLast(r: Resolver, base: Graph, ps: seq<Patch>, fps: seq<Candidate>, d: Candidate)
    returns (d': Candidate)
    requires WellFormed(base) && |ps| == |fps| > 0 && Apply(r, base, ps[|ps| - 1]) == Some(fps[|fps| - 1])
    requires Merged(base, fps[..|fps| - 1], d) && ApartFrom(fps[..|fps| - 1], fps[|fps| - 1])
    ensures ApplyAll(r, d, ps[|ps| - 1].actions, ps[|ps| - 1].removePolicy) == Some(d') && Merged(base, fps, d')
  {
    var front, f, p := fps[..|fps| - 1], fps[|fps| - 1], ps[|ps| - 1];
    Reassembled(fps);
    MergedMore(r, base, p, f, front, d);
    d' := ApplyAll(r, d, p.actions, p.removePolicy).value;
  }

  lemma {:induction false} ConcatenationMerges(r: Resolver, base: Graph, policy: RemovePolicy, ps: seq<Patch>,
                                               fps: seq<Candidate>) returns (d: Candidate)
    requires WellFormed(base) && ApplyAlone(r, base, policy, ps, fps) && PairwiseDisjoint(fps)
    ensures ApplyAll(r, Start(base), Concat(ps), policy) == Some(d) && Merged(base, fps, d)
  {
    if ps == [] {
      d := Start(base);
      MergedStart(base);
    } else {
      SplitLast(r, base, policy, ps, fps);
      var d1 := ConcatenationMerges(r, base, policy, ps[..|ps| - 1], fps[..|fps| - 1]);
      d := MergeLast(r, base, ps, fps, d1);
      ConcatLast(r, base, policy, ps, d1);
    }
  }

  /** The concatenation applies, and its graph is the merge of the footprints. */
  lemma {:induction false} ConcatenationIsMerge(r: Resolver, base: Graph, policy: RemovePolicy, ps: seq<Patch>,
        fps: seq<Candidate>)
    requires WellFormed(base) && ApplyAlone(r, base, policy, ps, fps) && PairwiseDisjoint(fps)
    ensures ApplyAll(r, Start(base), Concat(ps), policy).Some?
    ensures Good(base, fps, ApplyAll(r, Start(base), Concat(ps), policy).value.graph)
  {
    var d := ConcatenationMerges(r, base, policy, ps, fps);
  }

  /**
   * The change sets of the concatenation: every node and edge is recorded as
   * by the one patch that touches it, the policies and parameter updates included.
   */
  lemma {:induction false} MergedChanges(r: Resolver, base: Graph, policy: RemovePolicy, ps: seq<Patch>,
                                         fps: seq<Candidate>)
    requires WellFormed(base) && ApplyAlone(r, base, policy, ps, fps) && PairwiseDisjoint(fps)
    ensures ApplyAll(r, Start(base), Concat(ps), policy).Some?
    ensures MergedTracks(base, fps, ApplyAll(r, Start(base), Concat(ps), policy).value)
  {
    var d := ConcatenationMerges(r, base, policy, ps, fps);
  }

  lemma {:induction false} InTurnLast(r: Resolver, base: Graph, ps: seq<Patch>, fps: seq<Candidate>, g: Graph)
    requires WellFormed(base) && |ps| == |fps| > 0 && Apply(r, base, ps[|ps| - 1]) == Some(fps[|fps| - 1])
    requires ApplyInTurn(r, base, ps[..|ps| - 1]) == Some(g)
    requires Good(base, fps[..|fps| - 1], g) && ApartFrom(fps[..|fps| - 1], fps[|fps| - 1])
    ensures ApplyInTurn(r, base, ps).Some? && Good(base, fps, ApplyInTurn(r, base, ps).value)
  {
    var front, f := fps[..|fps| - 1], fps[|fps| - 1];
    Reassembled(fps);
    ReplayMerge(r, base, ps[|ps| - 1], f, front, Start(g));
  }

  /** Applying the patches one after another gives the same merge. */
  lemma {:induction false} InTurnIsMerge(r: Resolver, base: Graph, policy: RemovePolicy, ps: seq<Patch>,
        fps: seq<Candidate>)
    requires WellFormed(base) && ApplyAlone(r, base, policy, ps, fps) && PairwiseDisjoint(fps)
    ensures ApplyInTurn(r, base, ps).Some?
    ensures Good(base, fps, ApplyInTurn(r, base, ps).value)
  {
    if ps == [] {
      MergeOfNone(base);
    } else {
      SplitLast(r, base, policy, ps, fps);
      InTurnIsMerge(r, base, policy, ps[..|ps| - 1], fps[..|fps| - 1]);
      InTurnLast(r, base, ps, fps, ApplyInTurn(r, base, ps[..|ps| - 1]).value);
    }
  }

  ghost predicate IsPermutation(perm: seq<nat>, n: nat) {
    && |perm| == n
    && (forall i :: 0 <= i < n ==> perm[i] < n)
    && (forall i, j :: 0 <= i < j < n ==> perm[i] != perm[j])
    && (forall k :: 0 <= k < n ==> k in perm)
  }

  function Permute<T>(xs: seq<T>, perm: seq<nat>): (ys: seq<T>)
    requires forall i :: 0 <= i < |perm| ==> perm[i] < |xs|
    ensures |ys| == |perm|
  {
    seq(|perm|, i requires 0 <= i < |perm| => xs[perm[i]])
  }

  /** Being the merge of some footprints does not depend on how they are listed. */
  lemma {:induction false} MergeIgnoresOrder(base: Graph, fps: seq<Candidate>, perm: seq<nat>, g: Graph)
    requires IsPermutation(perm, |fps|) && IsMerge(base, Permute(fps, perm), g)
    ensures IsMerge(base, fps, g)
  {
    var qs := Permute(fps, perm);
    forall k | 0 <= k < |fps| ensures HasEffectOf(fps[k], g) {
      assert k in perm;
      var i :| 0 <= i < |perm| && perm[i] == k;
      assert qs[i] == fps[k];
    }
    forall n | NodeUntouched(fps, n) ensures SameNode(base, g, n) {
      assert NodeUntouched(qs, n);
    }
    forall e | EdgeUntouched(fps, e) ensures SameEdge(base, g, e) {
      assert EdgeUntouched(qs, e);
    }
  }

  lemma {:induction false} PermutedDisjoint(fps: seq<Candidate>, perm: seq<nat>)
    requires PairwiseDisjoint(fps) && IsPermutation(perm, |fps|)
    ensures PairwiseDisjoint(Permute(fps, perm))
  {
    var qs := Permute(fps, perm);
    forall i, j | 0 <= i < j < |qs| ensures DisjointFootprints(qs[i], qs[j]) {
      assert perm[i] < perm[j] || perm[j] < perm[i];
    }
  }

  /**
   * Merge soundness: the patches, concatenated in any order, apply, and leave
   * the nodes and edges that applying them one after another leaves.
   */
  lemma {:induction false} MergeSound(r: Resolver, base: Graph, policy: RemovePolicy, ps: seq<Patch>,
        fps: seq<Candidate>, perm: seq<nat>)
    requires WellFormed(base) && ApplyAlone(r, base, policy, ps, fps) && PairwiseDisjoint(fps)
    requires IsPermutation(perm, |ps|)
    ensures ApplyInTurn(r, base, ps).Some?
    ensures ApplyAll(r, Start(base), Concat(Permute(ps, perm)), policy).Some?
    ensures ApplyAll(r, Start(base), Concat(Permute(ps, perm)), policy).value.graph == ApplyInTurn(r, base, ps).value
    ensures IsMerge(base, fps, ApplyInTurn(r, base, ps).value)
  {
    var qs, gps := Permute(ps, perm), Permute(fps, perm);
    PermutedDisjoint(fps, perm);
    ConcatenationIsMerge(r, base, policy, qs, gps);
    InTurnIsMerge(r, base, policy, ps, fps);
    var g := ApplyAll(r, Start(base), Concat(qs), policy).value.graph;
    var h := ApplyInTurn(r, base, ps).value;
    MergeIgnoresOrder(base, fps, perm, g);
    MergeNodesUnique(base, fps, g, h);
    MergeEdgesUnique(base, fps, g, h);
  }
}
