/** The queue of mutation requests and the batches merged from its head. */
module MutationCoordinator {
  import opened Wrappers
  import opened GraphModel
  import opened GraphSpecs
  import opened MutationApplier
  import A = MutationActions
  import M = MutationModel
  import S = MergeSoundness

  // -------------------------------------------------------------------------
  // Footprints

  method DisjointIds(xs: seq<Id>, ys: seq<Id>) returns (ok: bool)
    ensures ok <==> M.Elements(xs) !! M.Elements(ys)
  {
    for i := 0 to |ys|
      invariant forall j :: 0 <= j < i ==> ys[j] !in xs
    {
      if ys[i] in xs {
        assert ys[i] in M.Elements(xs) && ys[i] in M.Elements(ys);
        return false;
      }
    }
    return true;
  }

  method Disjoint(a: ChangeLists, b: ChangeLists) returns (ok: bool)
    ensures ok <==> M.Elements(a.touchedNodes) !! M.Elements(b.touchedNodes)
                    && M.Elements(a.touchedEdges) !! M.Elements(b.touchedEdges)
  {
    ok := DisjointIds(a.touchedNodes, b.touchedNodes);
    if ok {
      ok := DisjointIds(a.touchedEdges, b.touchedEdges);
    }
  }

  ghost predicate ListsFootprints(ls: seq<ChangeLists>, fps: seq<M.Candidate>) {
    |ls| == |fps| && forall i :: 0 <= i < |ls| ==> ListsAll(ls[i], fps[i])
  }

  method DisjointFromAll(ls: seq<ChangeLists>, l: ChangeLists, ghost fps: seq<M.Candidate>,
        ghost f: M.Candidate) returns (ok: bool)
    requires ListsFootprints(ls, fps) && ListsAll(l, f)
    ensures ok <==> S.ApartFrom(fps, f)
  {
    ok := true;
    for i := 0 to |ls|
      invariant ok <==> forall j :: 0 <= j < i ==> S.DisjointFootprints(fps[j], f)
    {
      var apart := Disjoint(ls[i], l);
      assert apart <==> S.DisjointFootprints(fps[i], f);
      ok := ok && apart;
    }
  }

  // -------------------------------------------------------------------------
  // What a batch is

  /** The requests can be applied as one patch against base. */
  ghost predicate Mergeable(r: M.Resolver, base: Graph, ps: seq<M.Patch>, fps: seq<M.Candidate>) {
    && ps != []
    && S.ApplyAlone(r, base, ps[0].removePolicy, ps, fps)
    && S.PairwiseDisjoint(fps)
    && forall i :: 0 <= i < |ps| ==> ps[i].baseVersion == ps[0].baseVersion
  }

  ghost predicate CanMerge(r: M.Resolver, base: Graph, ps: seq<M.Patch>) {
    exists fps :: Mergeable(r, base, ps, fps)
  }

  lemma {:induction false} MergeableUnique(r: M.Resolver, base: Graph, ps: seq<M.Patch>, fps: seq<M.Candidate>,
        gps: seq<M.Candidate>)
    requires Mergeable(r, base, ps, fps) && Mergeable(r, base, ps, gps)
    ensures fps == gps
  {
    forall i | 0 <= i < |ps| ensures fps[i] == gps[i] {
      assert M.Apply(r, base, ps[i]) == Some(fps[i]) == Some(gps[i]);
    }
  }

  lemma {:induction false} MergeableOne(r: M.Resolver, base: Graph, p: M.Patch)
    ensures CanMerge(r, base, [p]) <==> M.Apply(r, base, p).Some?
  {
    if M.Apply(r, base, p).Some? {
      assert Mergeable(r, base, [p], [M.Apply(r, base, p).value]);
    }
    if fps :| Mergeable(r, base, [p], fps) {
      assert M.Apply(r, base, [p][0]) == Some(fps[0]);
    }
  }

  /** Exactly the tests the loop makes before it takes one more request. */
  ghost predicate Joins(r: M.Resolver, base: Graph, ps: seq<M.Patch>, fps: seq<M.Candidate>, p: M.Patch)
    requires ps != []
  {
    && p.removePolicy == ps[0].removePolicy
    && p.baseVersion == ps[0].baseVersion
    && M.Apply(r, base, p).Some?
    && S.ApartFrom(fps, M.Apply(r, base, p).value)
  }

  lemma {:induction false} MergeableMore(r: M.Resolver, base: Graph, ps: seq<M.Patch>, fps: seq<M.Candidate>,
        p: M.Patch)
    requires Mergeable(r, base, ps, fps)
    ensures Joins(r, base, ps, fps, p) ==> Mergeable(r, base, ps + [p], fps + [M.Apply(r, base, p).value])
    ensures CanMerge(r, base, ps + [p]) ==> Joins(r, base, ps, fps, p)
  {
    if gps :| Mergeable(r, base, ps + [p], gps) {
      var front := gps[..|ps|];
      assert forall i :: 0 <= i < |ps| ==> (ps + [p])[i] == ps[i];
      assert Mergeable(r, base, ps, front);
      MergeableUnique(r, base, ps, fps, front);
      assert (ps + [p])[|ps|] == p;
      assert gps[|ps|] == M.Apply(r, base, p).value;
      forall i | 0 <= i < |fps| ensures S.DisjointFootprints(fps[i], gps[|ps|]) {
        assert fps[i] == gps[i];
      }
    }
  }

  /** The one patch that stands for all requests of a batch. */
  ghost predicate IsMerged(ps: seq<M.Patch>, merged: M.Patch) {
    && ps != []
    && merged == M.Patch(ps[0].baseVersion, ps[0].removePolicy, S.Concat(ps))
  }

  lemma {:induction false} ConcatMore(ps: seq<M.Patch>, p: M.Patch)
    ensures S.Concat(ps + [p]) == S.Concat(ps) + p.actions
  {
    assert (ps + [p])[..|ps|] == ps;
  }

  /** A batch of mergeable requests applies, with the effect of taking them in turn. */
  lemma {:induction false} BatchSound(r: M.Resolver, base: Graph, ps: seq<M.Patch>, merged: M.Patch)
    requires WellFormed(base) && CanMerge(r, base, ps) && IsMerged(ps, merged)
    ensures S.ApplyInTurn(r, base, ps).Some? && M.Apply(r, base, merged).Some?
    ensures M.Apply(r, base, merged).value.graph == S.ApplyInTurn(r, base, ps).value
  {
    var fps :| Mergeable(r, base, ps, fps);
    var perm: seq<nat> := seq(|ps|, i requires 0 <= i < |ps| => i);
    forall k | 0 <= k < |ps| ensures k in perm {
      assert perm[k] == k;
    }
    assert S.Permute(ps, perm) == ps;
    S.MergeSound(r, base, ps[0].removePolicy, ps, fps, perm);
    var k := |ps| - 1;
    assert M.Apply(r, base, ps[k]) == Some(fps[k]);
    assert |S.Concat(ps)| >= |ps[k].actions| > 0;
  }

  /**
   * The batch taken from the head of a queue: the longest prefix within the
   * limit that can be merged, or the first request alone when it fails.
   */
  ghost predicate IsBatch(r: M.Resolver, base: Graph, queue: seq<M.Patch>, limit: nat, n: nat) {
    && n <= |queue|
    && (queue == [] ==> n == 0)
    && (queue != [] ==> 1 <= n)
    && (1 < n ==> n <= limit)
    && (1 < n ==> CanMerge(r, base, queue[..n]))
    && (0 < n < |queue| && n < limit && CanMerge(r, base, queue[..n]) ==> !CanMerge(r, base, queue[..n + 1]))
  }

  lemma {:induction false} BatchStarts(r: M.Resolver, base: Graph, p: M.Patch,
        l: ChangeLists) returns (fps: seq<M.Candidate>)
    requires M.Apply(r, base, p).Some? && ListsAll(l, M.Apply(r, base, p).value)
    ensures Mergeable(r, base, [p], fps) && ListsFootprints([l], fps) && S.Concat([p]) == p.actions
  {
    fps := [M.Apply(r, base, p).value];
    ConcatMore([], p);
    assert [] + [p] == [p];
  }

  /** A request that joins extends the batch and its footprints. */
  lemma {:induction false} JoinStep(r: M.Resolver, base: Graph, ps: seq<M.Patch>, fps: seq<M.Candidate>,
        ls: seq<ChangeLists>, p: M.Patch, l: ChangeLists)
    returns (more: seq<M.Candidate>)
    requires Mergeable(r, base, ps, fps) && ListsFootprints(ls, fps) && Joins(r, base, ps, fps, p)
    requires ListsAll(l, M.Apply(r, base, p).value)
    ensures Mergeable(r, base, ps + [p], more) && ListsFootprints(ls + [l], more)
    ensures S.Concat(ps + [p]) == S.Concat(ps) + p.actions
  {
    ConcatMore(ps, p);
    MergeableMore(r, base, ps, fps, p);
    more := fps + [M.Apply(r, base, p).value];
  }

  /** The loop stops at the limit, at the end of the queue, or at a request that cannot join. */
  lemma {:induction false} BatchStops(r: M.Resolver, base: Graph, origins: seq<M.Patch>, rest: seq<M.Patch>,
        fps: seq<M.Candidate>, limit: nat)
    requires Mergeable(r, base, origins, fps) && (1 < |origins| ==> |origins| <= limit)
    requires rest != [] && |origins| < limit ==> !Joins(r, base, origins, fps, rest[0])
    ensures IsBatch(r, base, origins + rest, limit, |origins|)
  {
    var all := origins + rest;
    assert all[..|origins|] == origins;
    if rest != [] {
      assert all[..|origins| + 1] == origins + [rest[0]];
      MergeableMore(r, base, origins, fps, rest[0]);
    }
  }

  /** A batch in the making: what was taken, what is left, and what the loop keeps about it. */
  ghost predicate Growing(r: M.Resolver, base: Graph, all: seq<M.Patch>, origins: seq<M.Patch>, rest: seq<M.Patch>,
                          fps: seq<M.Candidate>, ls: seq<ChangeLists>, actions: seq<M.Action>) {
    && all == origins + rest && Mergeable(r, base, origins, fps) && ListsFootprints(ls, fps)
    && actions == S.Concat(origins)
  }

  lemma {:induction false} GrowStart(r: M.Resolver, base: Graph, head: M.Patch, l: ChangeLists, rest: seq<M.Patch>)
    returns (fps: seq<M.Candidate>)
    requires M.Apply(r, base, head).Some? && ListsAll(l, M.Apply(r, base, head).value)
    ensures Growing(r, base, [head] + rest, [head], rest, fps, [l], head.actions)
  {
    fps := BatchStarts(r, base, head, l);
  }

  lemma {:induction false} GrowStep(r: M.Resolver, base: Graph, all: seq<M.Patch>, origins: seq<M.Patch>,
                                    rest: seq<M.Patch>, fps: seq<M.Candidate>, ls: seq<ChangeLists>,
                                    actions: seq<M.Action>, l: ChangeLists) returns (more: seq<M.Candidate>)
    requires Growing(r, base, all, origins, rest, fps, ls, actions) && rest != []
    requires Joins(r, base, origins, fps, rest[0]) && ListsAll(l, M.Apply(r, base, rest[0]).value)
    ensures Growing(r, base, all, origins + [rest[0]], rest[1..], more, ls + [l], actions + rest[0].actions)
  {
    assert all == (origins + [rest[0]]) + rest[1..];
    more := JoinStep(r, base, origins, fps, ls, rest[0], l);
  }

  class Coordinator {
    var queue: seq<M.Patch>
    const spec: GraphSpec
    const resolver: M.Resolver
    const mergeLimit: nat

    constructor (spec: GraphSpec, resolver: M.Resolver, mergeLimit: nat)
      ensures this.spec == spec && this.resolver == resolver && this.mergeLimit == mergeLimit && queue == []
    {
      this.spec, this.resolver, this.mergeLimit, queue := spec, resolver, mergeLimit, [];
    }

    /** Whether one more request may join, and what it touches. */
    method Admits(origins: seq<M.Patch>, footprints: seq<ChangeLists>, next: M.Patch, ghost fps: seq<M.Candidate>)
      returns (ok: bool, lists: ChangeLists)
      requires spec.Valid() && origins != [] && ListsFootprints(footprints, fps)
      ensures ok <==> Joins(resolver, spec.model, origins, fps, next)
      ensures ok ==> ListsAll(lists, M.Apply(resolver, spec.model, next).value)
    {
      lists := ChangeLists([], [], [], [], map[], [], [], []);
      if next.removePolicy != origins[0].removePolicy || next.baseVersion != origins[0].baseVersion {
        return false, lists;
      }
      var s, fp := A.Apply(resolver, spec, next);
      if !s.Ok? {
        return false, lists;
      }
      lists := fp.lists;
      ok := DisjointFromAll(footprints, lists, fps, fp.view);
    }

    /** Takes requests off the head of the queue while they can join the batch. */
    method Extend(head: M.Patch, lists: ChangeLists) returns (origins: seq<M.Patch>, actions: seq<M.Action>)
      requires spec.Valid() && M.Apply(resolver, spec.model, head).Some?
      requires ListsAll(lists, M.Apply(resolver, spec.model, head).value)
      modifies this`queue
      ensures [head] + old(queue) == origins + queue
      ensures IsBatch(resolver, spec.model, [head] + old(queue), mergeLimit, |origins|)
      ensures CanMerge(resolver, spec.model, origins) && actions == S.Concat(origins)
    {
      ghost var all, base := [head] + queue, spec.model;
      ghost var fps := GrowStart(resolver, base, head, lists, queue);
      var footprints, limit, joins := [lists], if mergeLimit < 1 then 1 else mergeLimit, true;
      origins, actions := [head], head.actions;
      while joins && queue != [] && |origins| < limit
        invariant Growing(resolver, base, all, origins, queue, fps, footprints, actions) && 1 <= |origins| <= limit
        invariant !joins ==> queue != [] && !Joins(resolver, base, origins, fps, queue[0])
        decreases |queue|, joins
      {
        var more;
        joins, more := Admits(origins, footprints, queue[0], fps);
        if joins {
          fps := GrowStep(resolver, base, all, origins, queue, fps, footprints, actions, more);
          footprints := footprints + [more];
          origins, actions, queue := origins + [queue[0]], actions + queue[0].actions, queue[1..];
        }
      }
      BatchStops(resolver, base, origins, queue, fps, mergeLimit);
    }

    method TakeBatch() returns (merged: M.Patch, origins: seq<M.Patch>)
      requires spec.Valid()
      modifies this`queue
      ensures old(queue) == origins + queue
      ensures IsBatch(resolver, spec.model, old(queue), mergeLimit, |origins|)
      ensures origins != [] ==> IsMerged(origins, merged)
      ensures origins != [] && CanMerge(resolver, spec.model, origins) ==>
              && S.ApplyInTurn(resolver, spec.model, origins).Some? && M.Apply(resolver, spec.model, merged).Some?
              && M.Apply(resolver, spec.model, merged).value.graph == S.ApplyInTurn(resolver, spec.model, origins).value
    {
      merged, origins := M.Patch(None, Drain, []), [];
      if queue == [] {
        return;
      }
      var head := queue[0];
      assert queue == [head] + queue[1..];
      var s, fp := A.Apply(resolver, spec, head);
      queue := queue[1..];
      MergeableOne(resolver, spec.model, head);
      merged, origins := M.Patch(head.baseVersion, head.removePolicy, head.actions), [head];
      ConcatMore([], head);
      assert [] + [head] == [head];
      if s.Ok? {
        var actions;
        origins, actions := Extend(head, fp.lists);
        merged := merged.(actions := actions);
        BatchSound(resolver, spec.model, origins, merged);
      } else {
        assert ([head] + queue)[..1] == [head];
      }
    }
  }
}
