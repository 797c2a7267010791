/**
 * The Kahn pass of GraphValidator: nodes by declaration index, arcs for the
 * non-feedback edges, and a heap that yields the smallest ready index.
 */
module TopologicalOrder {
  import opened Wrappers
  import opened GraphModel
  import opened GraphSpecs

  datatype Arc = Arc(from: nat, to: nat)

  predicate InRange(n: nat, arcs: seq<Arc>) {
    forall i :: 0 <= i < |arcs| ==> arcs[i].from < n && arcs[i].to < n
  }

  predicate HasArc(arcs: seq<Arc>, u: nat, v: nat) {
    exists i :: 0 <= i < |arcs| && arcs[i] == Arc(u, v)
  }

  // -------------------------------------------------------------------------
  // What the pass promises

  /** Every node exactly once, and every arc points forward. */
  ghost predicate IsTopological(n: nat, arcs: seq<Arc>, order: seq<nat>) {
    && NoRepeats(order)
    && (forall v: nat :: v in order <==> v < n)
    && (forall i, j :: 0 <= i < |order| && 0 <= j < |order| && HasArc(arcs, order[i], order[j]) ==> i < j)
  }

  /** A walk of at least one arc that returns to where it started. */
  ghost predicate IsCycle(arcs: seq<Arc>, walk: seq<nat>) {
    && |walk| >= 2
    && walk[0] == walk[|walk| - 1]
    && forall i :: 0 <= i < |walk| - 1 ==> HasArc(arcs, walk[i], walk[i + 1])
  }

  ghost predicate Acyclic(arcs: seq<Arc>) {
    forall walk :: !IsCycle(arcs, walk)
  }

  /** xs comes before ys, or equals it, in the dictionary order. */
  ghost predicate LexLeq(xs: seq<nat>, ys: seq<nat>) {
    || xs <= ys
    || exists d :: 0 <= d < |xs| && d < |ys| && xs[..d] == ys[..d] && xs[d] < ys[d]
  }

  // -------------------------------------------------------------------------
  // The greedy order

  /** v has not been listed, and all its predecessors have. */
  ghost predicate Available(n: nat, arcs: seq<Arc>, done: seq<nat>, v: nat) {
    v < n && v !in done && forall i :: 0 <= i < |arcs| && arcs[i].to == v ==> arcs[i].from in done
  }

  /** Each entry is the smallest node available at its turn. */
  ghost predicate IsGreedy(n: nat, arcs: seq<Arc>, order: seq<nat>) {
    forall k :: 0 <= k < |order| ==> Picks(n, arcs, order, k)
  }

  ghost predicate Picks(n: nat, arcs: seq<Arc>, order: seq<nat>, k: nat)
    requires k < |order|
  {
    && Available(n, arcs, order[..k], order[k])
    && forall v: nat :: Available(n, arcs, order[..k], v) ==> order[k] <= v
  }

  ghost predicate IsExhausted(n: nat, arcs: seq<Arc>, order: seq<nat>) {
    forall v: nat :: !Available(n, arcs, order, v)
  }

  lemma {:induction false} GreedyDistinct(n: nat, arcs: seq<Arc>, order: seq<nat>)
    requires IsGreedy(n, arcs, order)
    ensures NoRepeats(order)
    ensures forall k :: 0 <= k < |order| ==> order[k] < n
  {
    forall i, j | 0 <= i < j < |order| ensures order[i] != order[j] {
      assert Picks(n, arcs, order, j);
      assert order[..j][i] == order[i];
    }
    forall k | 0 <= k < |order| ensures order[k] < n {
      assert Picks(n, arcs, order, k);
    }
  }

  lemma {:induction false} GreedyForward(n: nat, arcs: seq<Arc>, order: seq<nat>, i: nat, j: nat)
    requires IsGreedy(n, arcs, order) && i < |order| && j < |order| && HasArc(arcs, order[i], order[j])
    ensures i < j
  {
    assert Picks(n, arcs, order, j);
    var a :| 0 <= a < |arcs| && arcs[a] == Arc(order[i], order[j]);
    assert order[i] in order[..j];
    var k :| 0 <= k < j && order[k] == order[i];
    GreedyDistinct(n, arcs, order);
  }

  ghost function Below(n: nat): (r: set<nat>)
    ensures forall v: nat :: v in r <==> v < n
  {
    if n == 0 then {} else Below(n - 1) + {n - 1}
  }

  lemma {:induction false} BelowSize(n: nat)
    ensures |Below(n)| == n
  {
    if n > 0 {
      BelowSize(n - 1);
    }
  }

  ghost function Range(xs: seq<nat>): set<nat> {
    set x | x in xs
  }

  lemma {:induction false} RangeSize(xs: seq<nat>)
    requires NoRepeats(xs)
    ensures |Range(xs)| == |xs|
  {
    if xs == [] {
      assert Range(xs) == {};
    } else {
      var front, last := xs[..|xs| - 1], xs[|xs| - 1];
      RangeSize(front);
      assert Range(xs) == Range(front) + {last};
    }
  }

  lemma {:induction false} SubsetSameSize<T>(a: set<T>, b: set<T>)
    requires a <= b && |a| >= |b|
    ensures a == b
  {
    if x :| x in b && x !in a {
      SubsetSize(a, b - {x});
    }
  }

  lemma {:induction false} SubsetSize<T>(a: set<T>, b: set<T>)
    requires a <= b
    ensures |a| <= |b|
  {
    if a != {} {
      var x :| x in a;
      SubsetSize(a - {x}, b - {x});
    }
  }

  /** A greedy order lists all nodes exactly when it has n entries. */
  lemma {:induction false} GreedyComplete(n: nat, arcs: seq<Arc>, order: seq<nat>)
    requires IsGreedy(n, arcs, order)
    ensures |order| <= n
    ensures |order| == n <==> forall v: nat :: v < n ==> v in order
  {
    GreedyDistinct(n, arcs, order);
    RangeSize(order);
    BelowSize(n);
    assert Range(order) <= Below(n);
    SubsetSize(Range(order), Below(n));
    if |order| == n {
      SubsetSameSize(Range(order), Below(n));
      forall v: nat | v < n ensures v in order {
        assert v in Below(n);
      }
    } else if forall v: nat :: v < n ==> v in order {
      assert Below(n) <= Range(order);
      SubsetSize(Below(n), Range(order));
    }
  }

  lemma {:induction false} CompleteIsTopological(n: nat, arcs: seq<Arc>, order: seq<nat>)
    requires IsGreedy(n, arcs, order) && |order| == n
    ensures IsTopological(n, arcs, order)
  {
    GreedyDistinct(n, arcs, order);
    GreedyComplete(n, arcs, order);
    forall v | v in order ensures v < n {
      var k :| 0 <= k < |order| && order[k] == v;
    }
    forall i, j | 0 <= i < |order| && 0 <= j < |order| && HasArc(arcs, order[i], order[j]) ensures i < j {
      GreedyForward(n, arcs, order, i, j);
    }
  }

  // -------------------------------------------------------------------------
  // The least topological order

  /** In any topological order the next node is available after the ones before it. */
  lemma {:induction false} NextAvailable(n: nat, arcs: seq<Arc>, order: seq<nat>, d: nat)
    requires InRange(n, arcs) && IsTopological(n, arcs, order) && d < |order|
    ensures Available(n, arcs, order[..d], order[d])
  {
    var v := order[d];
    assert v in order;
    forall i | 0 <= i < |arcs| && arcs[i].to == v ensures arcs[i].from in order[..d] {
      assert arcs[i].from in order;
      var k :| 0 <= k < |order| && order[k] == arcs[i].from;
      assert HasArc(arcs, order[k], order[d]);
      assert order[..d][k] == order[k];
    }
  }

  lemma {:induction false} FirstDifference(xs: seq<nat>, ys: seq<nat>) returns (d: nat)
    requires |xs| == |ys| && xs != ys
    ensures d < |xs| && xs[..d] == ys[..d] && xs[d] != ys[d]
    decreases |xs|
  {
    var k := |xs| - 1;
    if xs[..k] == ys[..k] {
      d := k;
      assert xs == xs[..k] + [xs[k]] && ys == ys[..k] + [ys[k]];
    } else {
      d := FirstDifference(xs[..k], ys[..k]);
      assert xs[..k][..d] == xs[..d] && ys[..k][..d] == ys[..d];
    }
  }

  lemma {:induction false} GreedyIsLeast(n: nat, arcs: seq<Arc>, order: seq<nat>, other: seq<nat>)
    requires InRange(n, arcs) && IsGreedy(n, arcs, order) && |order| == n && IsTopological(n, arcs, other)
    ensures LexLeq(order, other)
  {
    RangeSize(other);
    BelowSize(n);
    assert Range(other) == Below(n);
    if order != other {
      var d := FirstDifference(order, other);
      assert Picks(n, arcs, order, d);
      NextAvailable(n, arcs, other, d);
    }
  }

  // -------------------------------------------------------------------------
  // Cycles

  /** A topological order leaves no room for a cycle. */
  lemma {:induction false} TopologicalIsAcyclic(n: nat, arcs: seq<Arc>, order: seq<nat>, walk: seq<nat>)
    requires InRange(n, arcs) && IsTopological(n, arcs, order)
    ensures !IsCycle(arcs, walk)
  {
    if IsCycle(arcs, walk) {
      var i := Position(n, arcs, order, walk[0], walk[1]);
      var j := Rises(n, arcs, order, walk, |walk| - 1);
    }
  }

  lemma {:induction false} Position(n: nat, arcs: seq<Arc>, order: seq<nat>, u: nat, v: nat) returns (i: nat)
    requires InRange(n, arcs) && IsTopological(n, arcs, order) && HasArc(arcs, u, v)
    ensures i < |order| && order[i] == u && u in order && v in order
  {
    var a :| 0 <= a < |arcs| && arcs[a] == Arc(u, v);
    assert u in order && v in order;
    i :| 0 <= i < |order| && order[i] == u;
  }

  /** Along a walk the positions only grow. */
  lemma {:induction false} Rises(n: nat, arcs: seq<Arc>, order: seq<nat>, walk: seq<nat>, k: nat) returns (j: nat)
    requires InRange(n, arcs) && IsTopological(n, arcs, order) && IsCycle(arcs, walk) && 0 < k < |walk|
    ensures j < |order| && order[j] == walk[k]
    ensures forall i :: 0 <= i < |order| && order[i] == walk[0] ==> i < j
  {
    var i := Position(n, arcs, order, walk[k - 1], walk[k]);
    j :| 0 <= j < |order| && order[j] == walk[k];
    assert HasArc(arcs, order[i], order[j]);
    if k > 1 {
      var m := Rises(n, arcs, order, walk, k - 1);
      assert m == i;
    }
  }

  /** Every leftover node of an exhausted order has a leftover predecessor. */
  ghost predicate HasLeftPredecessor(n: nat, arcs: seq<Arc>, order: seq<nat>, v: nat, u: nat) {
    u < n && u !in order && HasArc(arcs, u, v)
  }

  lemma {:induction false} LeftPredecessor(n: nat, arcs: seq<Arc>, order: seq<nat>, v: nat) returns (u: nat)
    requires InRange(n, arcs) && IsExhausted(n, arcs, order) && v < n && v !in order
    ensures HasLeftPredecessor(n, arcs, order, v, u)
  {
    assert !Available(n, arcs, order, v);
    var i :| 0 <= i < |arcs| && arcs[i].to == v && arcs[i].from !in order;
    u := arcs[i].from;
    assert arcs[i] == Arc(u, v);
  }

  ghost predicate LeftWalk(n: nat, arcs: seq<Arc>, order: seq<nat>, walk: seq<nat>) {
    && (forall i :: 0 <= i < |walk| ==> walk[i] < n && walk[i] !in order)
    && (forall i :: 0 <= i < |walk| - 1 ==> HasArc(arcs, walk[i], walk[i + 1]))
  }

  /** Walking backwards through the leftover nodes never stops. */
  lemma {:induction false} LongWalk(n: nat, arcs: seq<Arc>, order: seq<nat>, v: nat, len: nat) returns (walk: seq<nat>)
    requires InRange(n, arcs) && IsExhausted(n, arcs, order) && v < n && v !in order
    ensures |walk| == len + 1 && LeftWalk(n, arcs, order, walk)
  {
    if len == 0 {
      walk := [v];
    } else {
      var rest := LongWalk(n, arcs, order, v, len - 1);
      var u := LeftPredecessor(n, arcs, order, rest[0]);
      walk := [u] + rest;
      forall i | 0 <= i < |walk| - 1 ensures HasArc(arcs, walk[i], walk[i + 1]) {
        if i > 0 {
          assert walk[i] == rest[i - 1] && walk[i + 1] == rest[i];
        }
      }
    }
  }

  lemma {:induction false} Repeats(n: nat, xs: seq<nat>) returns (i: nat, j: nat)
    requires |xs| > n && forall k :: 0 <= k < |xs| ==> xs[k] < n
    ensures i < j < |xs| && xs[i] == xs[j]
  {
    if NoRepeats(xs) {
      RangeSize(xs);
      BelowSize(n);
      assert Range(xs) <= Below(n);
      SubsetSize(Range(xs), Below(n));
    }
    i, j :| 0 <= i < j < |xs| && xs[i] == xs[j];
  }

  /** The leftover nodes of an exhausted order contain a cycle. */
  lemma {:induction false} LeftoversCycle(n: nat, arcs: seq<Arc>, order: seq<nat>) returns (cycle: seq<nat>)
    requires InRange(n, arcs) && IsGreedy(n, arcs, order) && IsExhausted(n, arcs, order) && |order| != n
    ensures IsCycle(arcs, cycle) && forall i :: 0 <= i < |cycle| ==> cycle[i] < n && cycle[i] !in order
  {
    GreedyComplete(n, arcs, order);
    var v: nat :| v < n && v !in order;
    var walk := LongWalk(n, arcs, order, v, n);
    var i, j := Repeats(n, walk);
    cycle := walk[i..j + 1];
    forall k | 0 <= k < |cycle| - 1 ensures HasArc(arcs, cycle[k], cycle[k + 1]) {
      assert cycle[k] == walk[i + k] && cycle[k + 1] == walk[i + k + 1];
    }
  }

  /**
   * The pass decides acyclicity: a greedy order that cannot go on lists every
   * node exactly when there is no cycle; it is then the least topological
   * order, and otherwise the nodes it leaves contain a cycle.
   */
  lemma {:induction false} KahnDecides(n: nat, arcs: seq<Arc>, order: seq<nat>)
    requires InRange(n, arcs) && IsGreedy(n, arcs, order) && IsExhausted(n, arcs, order)
    ensures |order| == n <==> Acyclic(arcs)
    ensures |order| == n ==> IsTopological(n, arcs, order)
    ensures |order| == n ==> forall other :: IsTopological(n, arcs, other) ==> LexLeq(order, other)
    ensures |order| != n ==> exists cycle ::
              IsCycle(arcs, cycle) && forall i :: 0 <= i < |cycle| ==> cycle[i] < n && cycle[i] !in order
  {
    if |order| == n {
      CompleteIsTopological(n, arcs, order);
      forall walk ensures !IsCycle(arcs, walk) {
        TopologicalIsAcyclic(n, arcs, order, walk);
      }
      forall other | IsTopological(n, arcs, other) ensures LexLeq(order, other) {
        GreedyIsLeast(n, arcs, order, other);
      }
    } else {
      var cycle := LeftoversCycle(n, arcs, order);
    }
  }

  // -------------------------------------------------------------------------
  // In-degrees

  /** The arcs of a set of arc indices that end at v. */
  ghost function Into(arcs: seq<Arc>, some: set<nat>, v: nat): set<nat> {
    set i | i in some && i < |arcs| && arcs[i].to == v
  }

  ghost predicate Counts(n: nat, arcs: seq<Arc>, some: set<nat>, indegree: seq<nat>) {
    |indegree| == n && forall v :: 0 <= v < n ==> indegree[v] == |Into(arcs, some, v)|
  }

  /** The arcs whose source has not been listed. */
  ghost function Left(arcs: seq<Arc>, done: seq<nat>): (r: set<nat>)
    ensures forall i: nat :: i in r <==> i < |arcs| && arcs[i].from !in done
  {
    set i | i in Below(|arcs|) && arcs[i].from !in done
  }

  lemma {:induction false} CountMore(n: nat, arcs: seq<Arc>, some: set<nat>, indegree: seq<nat>, i: nat)
    requires InRange(n, arcs) && Counts(n, arcs, some, indegree) && i < |arcs| && i !in some
    ensures Counts(n, arcs, some + {i}, indegree[arcs[i].to := indegree[arcs[i].to] + 1])
  {
    forall v: nat | v < n
      ensures |Into(arcs, some + {i}, v)| == |Into(arcs, some, v)| + if arcs[i].to == v then 1 else 0
    {
      assert Into(arcs, some + {i}, v) == Into(arcs, some, v) + if arcs[i].to == v then {i} else {};
    }
  }

  lemma {:induction false} CountLess(n: nat, arcs: seq<Arc>, some: set<nat>, indegree: seq<nat>, i: nat)
    requires InRange(n, arcs) && Counts(n, arcs, some, indegree) && i < |arcs| && i in some
    ensures indegree[arcs[i].to] > 0
    ensures Counts(n, arcs, some - {i}, indegree[arcs[i].to := indegree[arcs[i].to] - 1])
  {
    forall v: nat | v < n
      ensures |Into(arcs, some, v)| == |Into(arcs, some - {i}, v)| + if arcs[i].to == v then 1 else 0
    {
      assert Into(arcs, some, v) == Into(arcs, some - {i}, v) + if arcs[i].to == v then {i} else {};
    }
  }

  /** No arc from an unlisted node left: all predecessors are listed. */
  lemma {:induction false} NoneInto(arcs: seq<Arc>, done: seq<nat>, v: nat)
    ensures |Into(arcs, Left(arcs, done), v)| == 0 <==>
            forall i :: 0 <= i < |arcs| && arcs[i].to == v ==> arcs[i].from in done
  {
    var s := Into(arcs, Left(arcs, done), v);
    if s == {} {
      forall i: nat | i < |arcs| && arcs[i].to == v ensures arcs[i].from in done {
        assert i !in s;
      }
    } else {
      var i :| i in s;
    }
  }

  // -------------------------------------------------------------------------
  // Adjacency lists

  /** The indices of the arcs out of u, in order. */
  function OutOf(arcs: seq<Arc>, u: nat): (r: seq<nat>)
    ensures forall k :: 0 <= k < |r| ==> r[k] < |arcs| && arcs[r[k]].from == u
  {
    if arcs == [] then []
    else OutOf(arcs[..|arcs| - 1], u) + if arcs[|arcs| - 1].from == u then [|arcs| - 1] else []
  }

  lemma {:induction false} OutOfAll(arcs: seq<Arc>, u: nat)
    ensures NoRepeats(OutOf(arcs, u))
    ensures forall i: nat :: i < |arcs| && arcs[i].from == u ==> i in OutOf(arcs, u)
  {
    if arcs != [] {
      var front := arcs[..|arcs| - 1];
      OutOfAll(front, u);
      forall i: nat | i < |arcs| && arcs[i].from == u ensures i in OutOf(arcs, u) {
        if i < |front| {
          assert front[i] == arcs[i];
        }
      }
    }
  }

  ghost predicate Lists(arcs: seq<Arc>, u: nat, targets: seq<nat>) {
    |targets| == |OutOf(arcs, u)| && forall k :: 0 <= k < |targets| ==> targets[k] == arcs[OutOf(arcs, u)[k]].to
  }

  lemma {:induction false} ListsMore(arcs: seq<Arc>, i: nat, u: nat, targets: seq<nat>)
    requires i < |arcs| && Lists(arcs[..i], u, targets)
    ensures arcs[i].from == u ==> Lists(arcs[..i + 1], u, targets + [arcs[i].to])
    ensures arcs[i].from != u ==> Lists(arcs[..i + 1], u, targets)
  {
    assert arcs[..i + 1][..i] == arcs[..i];
  }

  method Adjacency(n: nat, arcs: seq<Arc>) returns (indegree: seq<nat>, adj: seq<seq<nat>>)
    requires InRange(n, arcs)
    ensures Counts(n, arcs, Left(arcs, []), indegree)
    ensures |adj| == n && forall u :: 0 <= u < n ==> Lists(arcs, u, adj[u])
  {
    indegree, adj := seq(n, _ => 0), seq(n, _ => []);
    assert forall v :: 0 <= v < n ==> Into(arcs, {}, v) == {};
    for i := 0 to |arcs|
      invariant Counts(n, arcs, Below(i), indegree)
      invariant |adj| == n && forall u :: 0 <= u < n ==> Lists(arcs[..i], u, adj[u])
    {
      var a := arcs[i];
      CountMore(n, arcs, Below(i), indegree, i);
      assert Below(i + 1) == Below(i) + {i};
      forall u | 0 <= u < n
        ensures Lists(arcs[..i + 1], u, if u == a.from then adj[u] + [a.to] else adj[u])
      {
        ListsMore(arcs, i, u, adj[u]);
      }
      adj := adj[a.from := adj[a.from] + [a.to]];
      indegree := indegree[a.to := indegree[a.to] + 1];
    }
    assert arcs[..|arcs|] == arcs;
    assert Below(|arcs|) == Left(arcs, []);
  }

  // -------------------------------------------------------------------------
  // The pass

  /** The ready list holds exactly the unlisted nodes of in-degree zero. */
  ghost predicate ReadyOk(n: nat, order: seq<nat>, indegree: seq<nat>, ready: seq<nat>)
    requires |indegree| == n
  {
    && NoRepeats(ready)
    && (forall v: nat :: v in ready <==> v < n && v !in order && indegree[v] == 0)
  }

  lemma {:induction false} ReadyIsAvailable(n: nat, arcs: seq<Arc>, order: seq<nat>, indegree: seq<nat>,
        ready: seq<nat>)
    requires Counts(n, arcs, Left(arcs, order), indegree) && ReadyOk(n, order, indegree, ready)
    ensures forall v: nat :: v in ready <==> Available(n, arcs, order, v)
  {
    forall v: nat ensures v in ready <==> Available(n, arcs, order, v) {
      NoneInto(arcs, order, v);
    }
  }

  /** Takes the smallest index off the heap. */
  method PopMin(ready: seq<nat>) returns (least: nat, rest: seq<nat>)
    requires ready != [] && NoRepeats(ready)
    ensures least in ready && forall v :: v in ready ==> least <= v
    ensures NoRepeats(rest) && forall v :: v in rest <==> v in ready && v != least
  {
    var at := 0;
    for i := 1 to |ready|
      invariant 0 <= at < |ready|
      invariant forall j :: 0 <= j < i ==> ready[at] <= ready[j]
    {
      if ready[i] < ready[at] {
        at := i;
      }
    }
    least, rest := ready[at], ready[..at] + ready[at + 1..];
    forall v ensures v in rest <==> v in ready && v != least {
      if v in ready && v != least {
        var k :| 0 <= k < |ready| && ready[k] == v;
        assert k < at ==> rest[k] == v;
        assert k > at ==> rest[k - 1] == v;
      }
    }
  }

  /** A listed node has no arc left from an unlisted one, nor from the last listed. */
  lemma {:induction false} ListedHaveNone(n: nat, arcs: seq<Arc>, order: seq<nat>, v: nat)
    requires IsGreedy(n, arcs, order) && v in order
    ensures Into(arcs, Left(arcs, order[..|order| - 1]), v) == {}
  {
    var before := order[..|order| - 1];
    var k :| 0 <= k < |order| && order[k] == v;
    assert Picks(n, arcs, order, k);
    forall i | 0 <= i < |arcs| && arcs[i].to == v ensures arcs[i].from in before {
      assert arcs[i].from in order[..k];
      var j :| 0 <= j < k && order[j] == arcs[i].from;
      assert before[j] == arcs[i].from;
    }
    NoneInto(arcs, before, v);
  }

  lemma {:induction false} GreedyMore(n: nat, arcs: seq<Arc>, order: seq<nat>, v: nat)
    requires IsGreedy(n, arcs, order) && Available(n, arcs, order, v)
    requires forall u: nat :: Available(n, arcs, order, u) ==> v <= u
    ensures IsGreedy(n, arcs, order + [v])
  {
    var more := order + [v];
    forall k | 0 <= k < |more| ensures Picks(n, arcs, more, k) {
      if k < |order| {
        assert Picks(n, arcs, order, k);
        assert more[..k] == order[..k];
      } else {
        assert more[..k] == order;
      }
    }
  }

  /** The arcs out of u, up to the j-th. */
  ghost function FirstOut(arcs: seq<Arc>, u: nat, j: nat): set<nat>
    requires j <= |OutOf(arcs, u)|
  {
    Range(OutOf(arcs, u)[..j])
  }

  lemma {:induction false} FirstOutMore(arcs: seq<Arc>, u: nat, j: nat)
    requires j < |OutOf(arcs, u)|
    ensures FirstOut(arcs, u, j + 1) == FirstOut(arcs, u, j) + {OutOf(arcs, u)[j]}
    ensures OutOf(arcs, u)[j] !in FirstOut(arcs, u, j)
  {
    OutOfAll(arcs, u);
    var out := OutOf(arcs, u);
    assert out[..j + 1] == out[..j] + [out[j]];
  }

  lemma {:induction false} AllOut(arcs: seq<Arc>, order: seq<nat>, u: nat)
    ensures Left(arcs, order) - FirstOut(arcs, u, |OutOf(arcs, u)|) == Left(arcs, order + [u])
  {
    OutOfAll(arcs, u);
    var out := OutOf(arcs, u);
    assert out[..|out|] == out;
    forall i: nat ensures i in Left(arcs, order) - Range(out) <==> i in Left(arcs, order + [u]) {
      if i < |arcs| && arcs[i].from == u {
        assert i in out;
      }
      if i in out {
        var k :| 0 <= k < |out| && out[k] == i;
      }
    }
  }

  /** Lists u: one in-degree less for every arc out of it. */
  method Release(n: nat, arcs: seq<Arc>, targets: seq<nat>, indegree: seq<nat>, ready: seq<nat>,
                 ghost before: seq<nat>, u: nat) returns (indegree': seq<nat>, ready': seq<nat>)
    requires InRange(n, arcs) && u < n && u !in before && IsGreedy(n, arcs, before + [u]) && Lists(arcs, u, targets)
    requires Counts(n, arcs, Left(arcs, before), indegree) && ReadyOk(n, before + [u], indegree, ready)
    ensures Counts(n, arcs, Left(arcs, before + [u]), indegree') && ReadyOk(n, before + [u], indegree', ready')
  {
    ghost var order, left, out := before + [u], Left(arcs, before), OutOf(arcs, u);
    assert order[..|order| - 1] == before;
    assert left - FirstOut(arcs, u, 0) == left;
    indegree', ready' := indegree, ready;
    for j := 0 to |targets|
      invariant Counts(n, arcs, left - FirstOut(arcs, u, j), indegree')
      invariant ReadyOk(n, order, indegree', ready')
    {
      var next := targets[j];
      FirstOutMore(arcs, u, j);
      CountLess(n, arcs, left - FirstOut(arcs, u, j), indegree', out[j]);
      assert left - FirstOut(arcs, u, j) - {out[j]} == left - FirstOut(arcs, u, j + 1);
      assert out[j] in Into(arcs, left, next);
      if next in order {
        ListedHaveNone(n, arcs, order, next);
      }
      indegree' := indegree'[next := indegree'[next] - 1];
      if indegree'[next] == 0 {
        ready' := ready' + [next];
      }
    }
    AllOut(arcs, before, u);
  }

  method InitialReady(n: nat, indegree: seq<nat>) returns (ready: seq<nat>)
    requires |indegree| == n
    ensures ReadyOk(n, [], indegree, ready)
  {
    ready := [];
    for v := 0 to n
      invariant NoRepeats(ready) && forall u: nat :: u in ready <==> u < v && indegree[u] == 0
    {
      if indegree[v] == 0 {
        ready := ready + [v];
      }
    }
  }

  /** Lists the smallest ready node until none is left. */
  method Drain(n: nat, arcs: seq<Arc>) returns (order: seq<nat>, indegree: seq<nat>)
    requires InRange(n, arcs)
    ensures IsGreedy(n, arcs, order) && IsExhausted(n, arcs, order)
    ensures Counts(n, arcs, Left(arcs, order), indegree)
  {
    var adj;
    indegree, adj := Adjacency(n, arcs);
    var ready := InitialReady(n, indegree);
    order := [];
    while ready != []
      invariant IsGreedy(n, arcs, order) && |order| <= n
      invariant Counts(n, arcs, Left(arcs, order), indegree) && ReadyOk(n, order, indegree, ready)
      decreases n - |order|
    {
      ReadyIsAvailable(n, arcs, order, indegree, ready);
      var u, rest := PopMin(ready);
      GreedyMore(n, arcs, order, u);
      GreedyComplete(n, arcs, order + [u]);
      indegree, ready := Release(n, arcs, adj[u], indegree, rest, order, u);
      order := order + [u];
    }
    ReadyIsAvailable(n, arcs, order, indegree, ready);
  }

  /** The nodes named in the error: those whose in-degree never reached zero. */
  method Leftovers(n: nat, arcs: seq<Arc>, ghost order: seq<nat>, indegree: seq<nat>) returns (left: seq<nat>)
    requires IsGreedy(n, arcs, order) && IsExhausted(n, arcs, order)
    requires Counts(n, arcs, Left(arcs, order), indegree)
    ensures forall v: nat :: v in left <==> v < n && v !in order
  {
    left := [];
    for v := 0 to n
      invariant forall u: nat :: u in left <==> u < v && u !in order
    {
      LeftoverDegree(n, arcs, order, indegree, v);
      if indegree[v] != 0 {
        left := left + [v];
      }
    }
  }

  method Kahn(n: nat, arcs: seq<Arc>) returns (order: seq<nat>, left: seq<nat>)
    requires InRange(n, arcs)
    ensures |order| == n <==> Acyclic(arcs)
    ensures |order| == n ==> IsTopological(n, arcs, order)
    ensures |order| == n ==> forall other :: IsTopological(n, arcs, other) ==> LexLeq(order, other)
    ensures forall v: nat :: v in left <==> v < n && v !in order
    ensures |order| != n ==> exists cycle ::
              IsCycle(arcs, cycle) && forall i :: 0 <= i < |cycle| ==> cycle[i] in left
  {
    var indegree;
    order, indegree := Drain(n, arcs);
    left := Leftovers(n, arcs, order, indegree);
    KahnDecides(n, arcs, order);
  }

  lemma {:induction false} LeftoverDegree(n: nat, arcs: seq<Arc>, order: seq<nat>, indegree: seq<nat>, v: nat)
    requires IsGreedy(n, arcs, order) && IsExhausted(n, arcs, order) && v < n
    requires Counts(n, arcs, Left(arcs, order), indegree)
    ensures indegree[v] != 0 <==> v !in order
  {
    NoneInto(arcs, order, v);
    if v in order {
      var k :| 0 <= k < |order| && order[k] == v;
      assert Picks(n, arcs, order, k);
    } else {
      assert !Available(n, arcs, order, v);
    }
  }

  // -------------------------------------------------------------------------
  // The pass over a graph

  /** Some non-feedback edge leads from node u to node v, by declaration index. */
  ghost predicate EdgeBetween(nodes: seq<NodeSpec>, edges: seq<EdgeSpec>, u: nat, v: nat) {
    exists e :: e in edges && Joins(nodes, e, u, v)
  }

  predicate Joins(nodes: seq<NodeSpec>, e: EdgeSpec, u: nat, v: nat) {
    !e.feedback && u < |nodes| && v < |nodes| && nodes[u].id == e.from.node && nodes[v].id == e.to.node
  }

  /** One arc per non-feedback edge whose ends are declared. */
  method ToArcs(g: GraphSpec) returns (arcs: seq<Arc>)
    requires g.Lists()
    ensures InRange(|g.nodes|, arcs)
    ensures forall u: nat, v: nat :: HasArc(arcs, u, v) <==> EdgeBetween(g.nodes, g.edges, u, v)
  {
    arcs := [];
    for i := 0 to |g.edges|
      invariant InRange(|g.nodes|, arcs)
      invariant forall u: nat, v: nat :: HasArc(arcs, u, v) <==> EdgeBetween(g.nodes, g.edges[..i], u, v)
    {
      var e := g.edges[i];
      assert g.edges[..i + 1] == g.edges[..i] + [e];
      if !e.feedback {
        var from := g.IndexOfNode(e.from.node);
        var to := g.IndexOfNode(e.to.node);
        if from < |g.nodes| && to < |g.nodes| {
          ArcAdded(g.nodes, g.edges[..i], e, arcs, from, to);
          arcs := arcs + [Arc(from, to)];
        } else {
          ArcSkipped(g.nodes, g.edges[..i], e);
        }
      } else {
        ArcSkipped(g.nodes, g.edges[..i], e);
      }
    }
    assert g.edges[..|g.edges|] == g.edges;
  }

  lemma {:induction false} ArcAdded(nodes: seq<NodeSpec>, edges: seq<EdgeSpec>, e: EdgeSpec, arcs: seq<Arc>,
        from: nat, to: nat)
    requires UniqueNodes(nodes) && Joins(nodes, e, from, to)
    requires forall u: nat, v: nat :: HasArc(arcs, u, v) <==> EdgeBetween(nodes, edges, u, v)
    ensures forall u: nat, v: nat :: HasArc(arcs + [Arc(from, to)], u, v) <==> EdgeBetween(nodes, edges + [e], u, v)
  {
    var more := arcs + [Arc(from, to)];
    forall u: nat, v: nat ensures HasArc(more, u, v) <==> EdgeBetween(nodes, edges + [e], u, v) {
      assert HasArc(more, u, v) <==> HasArc(arcs, u, v) || Arc(u, v) == Arc(from, to) by {
        if HasArc(arcs, u, v) {
          var i :| 0 <= i < |arcs| && arcs[i] == Arc(u, v);
          assert more[i] == Arc(u, v);
        }
        assert more[|arcs|] == Arc(from, to);
      }
      assert EdgeBetween(nodes, edges + [e], u, v) <==> EdgeBetween(nodes, edges, u, v) || Joins(nodes, e, u, v) by {
        assert e in edges + [e] && forall x :: x in edges ==> x in edges + [e];
      }
      assert Joins(nodes, e, u, v) ==> u == from && v == to;
    }
  }

  lemma {:induction false} ArcSkipped(nodes: seq<NodeSpec>, edges: seq<EdgeSpec>, e: EdgeSpec)
    requires forall u: nat, v: nat :: !Joins(nodes, e, u, v)
    ensures forall u: nat, v: nat :: EdgeBetween(nodes, edges, u, v) <==> EdgeBetween(nodes, edges + [e], u, v)
  {
    assert forall x :: x in edges ==> x in edges + [e];
  }

  /** Positions in an order of declaration indices. */
  ghost predicate Precedes(nodes: seq<NodeSpec>, order: seq<nat>, a: Id, b: Id) {
    exists i, j :: 0 <= i < j < |order| && order[i] < |nodes| && order[j] < |nodes|
                   && nodes[order[i]].id == a && nodes[order[j]].id == b
  }

  /** Declared nodes in a ring of non-feedback edges. */
  ghost predicate GraphCycle(nodes: seq<NodeSpec>, edges: seq<EdgeSpec>, walk: seq<nat>) {
    && |walk| >= 2 && walk[0] == walk[|walk| - 1]
    && forall i :: 0 <= i < |walk| - 1 ==> EdgeBetween(nodes, edges, walk[i], walk[i + 1])
  }

  /** Every declared node once, every non-feedback edge forward. */
  ghost predicate GraphOrder(nodes: seq<NodeSpec>, edges: seq<EdgeSpec>, order: seq<nat>) {
    && NoRepeats(order)
    && (forall v: nat :: v in order <==> v < |nodes|)
    && (forall i, j :: 0 <= i < |order| && 0 <= j < |order| && EdgeBetween(nodes, edges, order[i], order[j]) ==> i < j)
  }

  ghost predicate SameArcs(nodes: seq<NodeSpec>, edges: seq<EdgeSpec>, arcs: seq<Arc>) {
    forall u: nat, v: nat :: HasArc(arcs, u, v) <==> EdgeBetween(nodes, edges, u, v)
  }

  lemma {:induction false} SameCycles(nodes: seq<NodeSpec>, edges: seq<EdgeSpec>, arcs: seq<Arc>)
    requires SameArcs(nodes, edges, arcs)
    ensures forall walk :: IsCycle(arcs, walk) <==> GraphCycle(nodes, edges, walk)
    ensures Acyclic(arcs) <==> !exists walk :: GraphCycle(nodes, edges, walk)
  {
    forall walk ensures IsCycle(arcs, walk) <==> GraphCycle(nodes, edges, walk) {
      assert forall i :: 0 <= i < |walk| - 1 ==>
        (HasArc(arcs, walk[i], walk[i + 1]) <==> EdgeBetween(nodes, edges, walk[i], walk[i + 1]));
    }
  }

  lemma {:induction false} SameOrders(nodes: seq<NodeSpec>, edges: seq<EdgeSpec>, arcs: seq<Arc>, order: seq<nat>)
    requires SameArcs(nodes, edges, arcs)
    ensures IsTopological(|nodes|, arcs, order) <==> GraphOrder(nodes, edges, order)
  {
  }

  /**
   * The validator's step: the order is complete exactly when no non-feedback
   * edges form a cycle. It is then the least order, by declaration index, in
   * which every such edge leads from an earlier node to a later one; otherwise
   * a cycle lies among the nodes reported.
   */
  method Sort(g: GraphSpec) returns (order: seq<nat>, inCycle: seq<nat>)
    requires g.Valid()
    ensures |order| == |g.nodes| <==> !exists walk :: GraphCycle(g.nodes, g.edges, walk)
    ensures |order| == |g.nodes| ==> GraphOrder(g.nodes, g.edges, order)
    ensures |order| == |g.nodes| ==> forall other :: GraphOrder(g.nodes, g.edges, other) ==> LexLeq(order, other)
    ensures |order| == |g.nodes| ==> NoRepeats(order) && forall v: nat :: v in order <==> v < |g.nodes|
    ensures |order| == |g.nodes| ==>
              forall e :: e in g.edges && !e.feedback ==> Precedes(g.nodes, order, e.from.node, e.to.node)
    ensures forall v: nat :: v in inCycle <==> v < |g.nodes| && v !in order
    ensures |order| != |g.nodes| ==> exists cycle ::
              GraphCycle(g.nodes, g.edges, cycle) && forall i :: 0 <= i < |cycle| ==> cycle[i] in inCycle
  {
    var arcs := ToArcs(g);
    order, inCycle := Kahn(|g.nodes|, arcs);
    assert SameArcs(g.nodes, g.edges, arcs);
    SameCycles(g.nodes, g.edges, arcs);
    forall other: seq<nat> ensures IsTopological(|g.nodes|, arcs, other) <==> GraphOrder(g.nodes, g.edges, other) {
      SameOrders(g.nodes, g.edges, arcs, other);
    }
    if |order| == |g.nodes| {
      forall e | e in g.edges && !e.feedback ensures Precedes(g.nodes, order, e.from.node, e.to.node) {
        Forward(g, arcs, order, e);
      }
    } else {
      ghost var cycle :| IsCycle(arcs, cycle) && forall i :: 0 <= i < |cycle| ==> cycle[i] in inCycle;
      assert GraphCycle(g.nodes, g.edges, cycle);
    }
  }

  lemma {:induction false} Forward(g: GraphSpec, arcs: seq<Arc>, order: seq<nat>, e: EdgeSpec)
    requires g.Valid() && IsTopological(|g.nodes|, arcs, order) && e in g.edges && !e.feedback
    requires forall u: nat, v: nat :: HasArc(arcs, u, v) <==> EdgeBetween(g.nodes, g.edges, u, v)
    ensures Precedes(g.nodes, order, e.from.node, e.to.node)
  {
    var u := Declared(g, e, e.from.node);
    var v := Declared(g, e, e.to.node);
    assert Joins(g.nodes, e, u, v) && HasArc(arcs, u, v);
    assert u in order && v in order;
    var i :| 0 <= i < |order| && order[i] == u;
    var j :| 0 <= j < |order| && order[j] == v;
  }

  lemma {:induction false} Declared(g: GraphSpec, e: EdgeSpec, n: Id) returns (k: nat)
    requires g.Valid() && e in g.edges && Ends(e, n)
    ensures k < |g.nodes| && g.nodes[k].id == n
  {
    assert n in g.model.nodes;
    assert g.model.nodes[n] in g.nodes;
    k :| 0 <= k < |g.nodes| && g.nodes[k] == g.model.nodes[n];
  }
}
