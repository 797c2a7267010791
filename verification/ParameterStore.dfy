/**
 * ParameterStore: hot parameter updates, one pending and the rest queued, that
 * take effect at packet boundaries. A view is the store together with what it
 * has promised and published; the class keeps one and is proved against it.
 */
module ParameterStore {
  import opened Wrappers

  type Values = map<string, string>

  datatype Snapshot = Snapshot(version: nat, values: Values)

  function Merge(base: Values, update: Values): Values {
    base + update
  }

  /** The left fold of the updates over the initial values. */
  function Fold(initial: Values, updates: seq<Values>): Values {
    if updates == [] then initial else Merge(Fold(initial, updates[..|updates| - 1]), updates[|updates| - 1])
  }

  lemma {:induction false} FoldMore(initial: Values, updates: seq<Values>, n: nat)
    requires n < |updates|
    ensures Fold(initial, updates[..n + 1]) == Merge(Fold(initial, updates[..n]), updates[n])
  {
    assert updates[..n + 1][..n] == updates[..n];
  }

  predicate Allowed(update: Values, hot: set<string>) {
    update.Keys <= hot
  }

  ghost predicate AllAllowed(updates: seq<Values>, hot: set<string>) {
    forall i :: 0 <= i < |updates| ==> Allowed(updates[i], hot)
  }

  /** k is the first queued request whose keys are all still hot, or the end of the queue. */
  ghost predicate IsFirst(queued: seq<Values>, hot: set<string>, k: nat) {
    && k <= |queued| && (k < |queued| ==> Allowed(queued[k], hot))
    && forall i :: 0 <= i < k ==> !Allowed(queued[i], hot)
  }

  lemma {:induction false} FirstExists(queued: seq<Values>, hot: set<string>) returns (k: nat)
    ensures IsFirst(queued, hot, k)
  {
    if queued == [] {
      k := 0;
    } else {
      var n := |queued| - 1;
      k := FirstExists(queued[..n], hot);
      if k == n && !Allowed(queued[n], hot) {
        k := n + 1;
      }
    }
  }

  lemma {:induction false} SomeFirst(queued: seq<Values>, hot: set<string>)
    ensures exists k: nat :: IsFirst(queued, hot, k)
  {
    var k := FirstExists(queued, hot);
  }

  ghost function FirstAllowed(queued: seq<Values>, hot: set<string>): (k: nat)
    ensures IsFirst(queued, hot, k)
  {
    SomeFirst(queued, hot);
    var k: nat :| IsFirst(queued, hot, k);
    k
  }

  lemma {:induction false} FirstIs(queued: seq<Values>, hot: set<string>, k: nat)
    requires IsFirst(queued, hot, k)
    ensures FirstAllowed(queued, hot) == k
  {
  }

  // -------------------------------------------------------------------------
  // Views

  /** A snapshot with the ticket of the request it was made for. */
  datatype Entry = Entry(ticket: nat, snapshot: Snapshot)

  /**
   * A ticket is the position of a request among the accepted ones; tickets are
   * those of the queued requests. submitted, promised and published are
   * histories; promised holds what Submit returned.
   */
  datatype View = View(
    current: Snapshot, pending: Option<Entry>, queued: seq<Values>, tickets: seq<nat>, hot: set<string>,
    submitted: seq<Values>, promised: seq<nat>, published: seq<Entry>)

  function Start(initial: Values): View {
    View(Snapshot(1, initial), None, [], [], {}, [], [], [])
  }

  function Next(current: Snapshot, ticket: nat, values: Values): Entry {
    Entry(ticket, Snapshot(current.version + 1, Merge(current.values, values)))
  }

  /** The k-th queued request becomes pending, and those ahead of it are gone. */
  function Promoted(v: View, k: nat): View
    requires |v.tickets| == |v.queued|
  {
    if k >= |v.queued| then v.(queued := [], tickets := [], pending := None)
    else v.(queued := v.queued[k + 1..], tickets := v.tickets[k + 1..],
            pending := Some(Next(v.current, v.tickets[k], v.queued[k])))
  }

  function Submitted(v: View, values: Values, hot: set<string>): View {
    if !Allowed(values, hot) then v
    else
      var t := |v.submitted|;
      var w := if v.pending.Some? then v.(queued := v.queued + [values], tickets := v.tickets + [t])
               else v.(pending := Some(Next(v.current, t, values)));
      w.(hot := hot, submitted := v.submitted + [values], promised := v.promised + [PromiseOf(v)])
  }

  /** What Submit returns. */
  function PromiseOf(v: View): nat {
    if v.pending.Some? then v.pending.value.snapshot.version + |v.queued| + 1 else v.current.version + 1
  }

  /** The pending snapshot is published, and the first request still allowed is promoted. */
  ghost function Switched(v: View): View
    requires |v.tickets| == |v.queued|
  {
    if v.pending.None? then v
    else Promoted(v.(current := v.pending.value.snapshot, published := v.published + [v.pending.value]),
                  FirstAllowed(v.queued, v.hot))
  }

  datatype Step = Submit(values: Values, hot: set<string>) | Switch

  ghost function Do(v: View, a: Step): View
    requires |v.tickets| == |v.queued|
  {
    match a
    case Submit(values, hot) => Submitted(v, values, hot)
    case Switch => Switched(v)
  }

  ghost predicate IsRun(initial: Values, views: seq<View>, steps: seq<Step>) {
    && |views| == |steps| + 1
    && views[0] == Start(initial)
    && forall i :: 0 <= i < |steps| ==> |views[i].tickets| == |views[i].queued| && views[i + 1] == Do(views[i], steps[i])
  }

  // -------------------------------------------------------------------------
  // What holds of every run

  /** Tickets below this one are published or gone. */
  function Limit(v: View): nat {
    if v.pending.Some? then v.pending.value.ticket else |v.submitted|
  }

  ghost predicate PublishedAt(v: View, k: nat)
    requires k < |v.published|
  {
    v.published[k].ticket < Limit(v)
  }

  ghost predicate PublishedPair(published: seq<Entry>, k: nat, l: nat)
    requires k < |published| && l < |published|
  {
    k < l ==> published[k].ticket < published[l].ticket
  }

  ghost predicate QueuedAt(v: View, i: nat)
    requires i < |v.tickets| == |v.queued|
  {
    && v.pending.Some? && v.pending.value.ticket < v.tickets[i] < |v.submitted|
    && v.submitted[v.tickets[i]] == v.queued[i]
  }

  ghost predicate QueuedPair(tickets: seq<nat>, i: nat, j: nat)
    requires i < |tickets| && j < |tickets|
  {
    i < j ==> tickets[i] < tickets[j]
  }

  /** Tickets are published, then pending, then queued in the order they were given out. */
  ghost predicate InOrder(v: View) {
    && |v.promised| == |v.submitted| && |v.tickets| == |v.queued|
    && (v.pending.Some? ==> v.pending.value.ticket < |v.submitted|)
    && (v.pending.None? ==> v.queued == [])
    && (forall k :: 0 <= k < |v.published| ==> PublishedAt(v, k))
    && (forall k, l :: 0 <= k < |v.published| && 0 <= l < |v.published| ==> PublishedPair(v.published, k, l))
    && (forall i :: 0 <= i < |v.tickets| ==> QueuedAt(v, i))
    && (forall i, j :: 0 <= i < |v.tickets| && 0 <= j < |v.tickets| ==> QueuedPair(v.tickets, i, j))
  }

  /** The snapshot e follows the snapshot before it by one version and the update of its ticket. */
  predicate Continues(before: Snapshot, e: Entry, submitted: seq<Values>) {
    && e.ticket < |submitted|
    && e.snapshot == Snapshot(before.version + 1, Merge(before.values, submitted[e.ticket]))
  }

  function Before(initial: Values, published: seq<Entry>, k: nat): Snapshot
    requires k <= |published|
  {
    if k == 0 then Snapshot(1, initial) else published[k - 1].snapshot
  }

  ghost predicate ChainedAt(initial: Values, published: seq<Entry>, submitted: seq<Values>, k: nat)
    requires k < |published|
  {
    Continues(Before(initial, published, k), published[k], submitted)
  }

  /** Published snapshots form a chain from the initial values to the current ones. */
  ghost predicate Chained(initial: Values, v: View) {
    && v.current == Before(initial, v.published, |v.published|)
    && (forall k :: 0 <= k < |v.published| ==> ChainedAt(initial, v.published, v.submitted, k))
    && (v.pending.Some? ==> Continues(v.current, v.pending.value, v.submitted))
  }

  lemma {:induction false} SubmitOrdered(v: View, values: Values, hot: set<string>)
    requires InOrder(v)
    ensures InOrder(Submitted(v, values, hot))
  {
    var w := Submitted(v, values, hot);
    forall k | 0 <= k < |w.published| ensures PublishedAt(w, k) {
      assert PublishedAt(v, k);
    }
    forall i | 0 <= i < |w.tickets| ensures QueuedAt(w, i) {
      assert i < |v.tickets| ==> QueuedAt(v, i);
    }
    forall i, j | 0 <= i < |w.tickets| && 0 <= j < |w.tickets| ensures QueuedPair(w.tickets, i, j) {
      if i < j && j < |v.tickets| {
        assert QueuedPair(v.tickets, i, j);
      } else if i < j {
        assert QueuedAt(v, i);
      }
    }
  }

  lemma {:induction false} SwitchOrdered(v: View)
    requires InOrder(v)
    ensures InOrder(Switched(v))
  {
    if v.pending.Some? {
      PublishOrdered(v);
      PromoteOrdered(v, FirstAllowed(v.queued, v.hot));
    }
  }

  lemma {:induction false} PublishOrdered(v: View)
    requires InOrder(v) && v.pending.Some?
    ensures var published := v.published + [v.pending.value];
            forall k, l :: 0 <= k < |published| && 0 <= l < |published| ==> PublishedPair(published, k, l)
  {
    var published := v.published + [v.pending.value];
    forall k, l | 0 <= k < |published| && 0 <= l < |published| ensures PublishedPair(published, k, l) {
      if k < l && l < |v.published| {
        assert PublishedPair(v.published, k, l);
      } else if k < l {
        assert PublishedAt(v, k);
      }
    }
  }

  lemma {:induction false} PromoteOrdered(v: View, k: nat)
    requires InOrder(v) && v.pending.Some? && k <= |v.queued|
    requires var published := v.published + [v.pending.value];
             forall k, l :: 0 <= k < |published| && 0 <= l < |published| ==> PublishedPair(published, k, l)
    ensures InOrder(Promoted(v.(current := v.pending.value.snapshot, published := v.published + [v.pending.value]), k))
  {
    var w := Promoted(v.(current := v.pending.value.snapshot, published := v.published + [v.pending.value]), k);
    if k < |v.tickets| {
      assert QueuedAt(v, k);
    }
    forall l | 0 <= l < |w.published| ensures PublishedAt(w, l) {
      assert l < |v.published| ==> PublishedAt(v, l);
    }
    forall i | 0 <= i < |w.tickets| ensures QueuedAt(w, i) {
      assert QueuedAt(v, k + 1 + i) && QueuedPair(v.tickets, k, k + 1 + i);
    }
    forall i, j | 0 <= i < |w.tickets| && 0 <= j < |w.tickets| ensures QueuedPair(w.tickets, i, j) {
      assert QueuedPair(v.tickets, k + 1 + i, k + 1 + j);
    }
  }

  lemma {:induction false} SubmitChained(initial: Values, v: View, values: Values, hot: set<string>)
    requires Chained(initial, v)
    ensures Chained(initial, Submitted(v, values, hot))
  {
    var w := Submitted(v, values, hot);
    forall k | 0 <= k < |w.published| ensures ChainedAt(initial, w.published, w.submitted, k) {
      assert ChainedAt(initial, v.published, v.submitted, k);
    }
  }

  lemma {:induction false} SwitchChained(initial: Values, v: View)
    requires InOrder(v) && Chained(initial, v)
    ensures Chained(initial, Switched(v))
  {
    var w := Switched(v);
    if v.pending.Some? {
      var n, q := |v.published|, FirstAllowed(v.queued, v.hot);
      assert w.published == v.published + [v.pending.value];
      forall k | 0 <= k < |w.published| ensures ChainedAt(initial, w.published, w.submitted, k) {
        assert k < n ==> ChainedAt(initial, v.published, v.submitted, k);
        assert Before(initial, w.published, k) == Before(initial, v.published, k);
      }
      if q < |v.queued| {
        assert QueuedAt(v, q);
      }
    }
  }

  /** What holds of every view a run leads to. */
  ghost predicate Lawful(initial: Values, v: View) {
    InOrder(v) && Chained(initial, v)
  }

  lemma {:induction false} SubmitLawful(initial: Values, v: View, values: Values, hot: set<string>)
    requires Lawful(initial, v)
    ensures Lawful(initial, Submitted(v, values, hot))
  {
    SubmitOrdered(v, values, hot);
    SubmitChained(initial, v, values, hot);
  }

  lemma {:induction false} SwitchLawful(initial: Values, v: View)
    requires Lawful(initial, v)
    ensures Lawful(initial, Switched(v))
  {
    SwitchOrdered(v);
    SwitchChained(initial, v);
  }

  lemma {:induction false} RunLawful(initial: Values, views: seq<View>, steps: seq<Step>, i: nat)
    requires IsRun(initial, views, steps) && i < |views|
    ensures Lawful(initial, views[i])
  {
    if i > 0 {
      RunLawful(initial, views, steps, i - 1);
      match steps[i - 1]
      case Submit(values, hot) => SubmitLawful(initial, views[i - 1], values, hot);
      case Switch => SwitchLawful(initial, views[i - 1]);
    }
  }

  lemma {:induction false} ChainVersions(initial: Values, v: View, k: nat)
    requires Chained(initial, v) && k < |v.published|
    ensures v.published[k].snapshot.version == k + 2
  {
    assert ChainedAt(initial, v.published, v.submitted, k);
    if k > 0 {
      ChainVersions(initial, v, k - 1);
    }
  }

  /** Whatever the hot keys: the k-th snapshot published has version k + 2, and requests are published in ticket order. */
  lemma {:induction false} VersionsHaveNoGaps(initial: Values, views: seq<View>, steps: seq<Step>, i: nat, k: nat)
    requires IsRun(initial, views, steps) && i < |views| && k < |views[i].published|
    ensures views[i].published[k].snapshot.version == k + 2
    ensures forall l :: k < l < |views[i].published| ==> views[i].published[k].ticket < views[i].published[l].ticket
  {
    RunLawful(initial, views, steps, i);
    ChainVersions(initial, views[i], k);
    forall l | k < l < |views[i].published| ensures views[i].published[k].ticket < views[i].published[l].ticket {
      assert PublishedPair(views[i].published, k, l);
    }
  }

  // -------------------------------------------------------------------------
  // Which version a queued request gets

  /** The version of the i-th queued request if nothing more is submitted, None if it is dropped. */
  ghost function Granted(version: nat, queued: seq<Values>, hot: set<string>, i: nat): Option<nat>
    requires i < |queued|
    decreases |queued|
  {
    var k := FirstAllowed(queued, hot);
    if i < k then None
    else if i == k then Some(version + 1)
    else Granted(version + 1, queued[k + 1..], hot, i - k - 1)
  }

  lemma {:induction false} AllowedPrefix(queued: seq<Values>, hot: set<string>, i: nat)
    requires 0 < i < |queued| && Allowed(queued[0], hot)
    ensures AllAllowed(queued[..i + 1], hot) <==> AllAllowed(queued[1..][..i], hot)
  {
    var rest, all := queued[1..][..i], queued[..i + 1];
    forall j | 0 <= j < |rest| && AllAllowed(all, hot) ensures Allowed(rest[j], hot) {
      assert rest[j] == all[j + 1];
    }
    forall j | 0 <= j < |all| && AllAllowed(rest, hot) ensures Allowed(all[j], hot) {
      assert j > 0 ==> all[j] == rest[j - 1];
    }
  }

  /** It is never later than the place in the queue says, and that version exactly if none ahead of it is dropped. */
  lemma {:induction false} GrantedIff(version: nat, queued: seq<Values>, hot: set<string>, i: nat)
    requires i < |queued|
    ensures Granted(version, queued, hot, i).Some? ==> Granted(version, queued, hot, i).value <= version + i + 1
    ensures Granted(version, queued, hot, i) == Some(version + i + 1) <==> AllAllowed(queued[..i + 1], hot)
    decreases |queued|
  {
    var k := FirstAllowed(queued, hot);
    if i > k {
      GrantedIff(version + 1, queued[k + 1..], hot, i - k - 1);
    }
    if k > 0 {
      assert queued[..i + 1][0] == queued[0] && !Allowed(queued[0], hot);
    } else if i > 0 {
      AllowedPrefix(queued, hot, i);
    }
  }

  /** Switching until nothing is pending. */
  ghost function Drained(v: View): View
    requires |v.tickets| == |v.queued|
    decreases |v.queued| + if v.pending.Some? then 1 else 0
  {
    if v.pending.None? then v else Drained(Switched(v))
  }

  /** The request of the ticket is published with this version. */
  ghost predicate HasVersion(published: seq<Entry>, ticket: nat, version: nat) {
    exists k :: 0 <= k < |published| && published[k].ticket == ticket && published[k].snapshot.version == version
  }

  /** What a switch does while something is pending; draining goes on from there. */
  lemma {:induction false} SwitchedParts(v: View)
    requires v.pending.Some? && |v.tickets| == |v.queued|
    ensures var k, w := FirstAllowed(v.queued, v.hot), Switched(v);
            && Drained(v) == Drained(w) && w.hot == v.hot && w.published == v.published + [v.pending.value]
            && w.queued == (if k < |v.queued| then v.queued[k + 1..] else [])
            && w.tickets == (if k < |v.queued| then v.tickets[k + 1..] else [])
            && w.pending == (if k < |v.queued| then Some(Next(v.pending.value.snapshot, v.tickets[k], v.queued[k])) else None)
  {
  }

  /** Draining publishes the pending snapshot next, and only requests behind it after that. */
  lemma {:induction false} DrainExtends(v: View)
    requires InOrder(v)
    ensures InOrder(Drained(v)) && v.published <= Drained(v).published
    ensures v.pending.Some? ==>
              |v.published| < |Drained(v).published| && Drained(v).published[|v.published|] == v.pending.value
    decreases |v.queued| + if v.pending.Some? then 1 else 0
  {
    if v.pending.Some? {
      SwitchedParts(v);
      SwitchOrdered(v);
      DrainExtends(Switched(v));
    }
  }

  /** A ticket that is neither published nor in line stays unpublished. */
  lemma {:induction false} PassedOver(v: View, ticket: nat, k: nat)
    requires InOrder(v) && k < |Drained(v).published|
    requires forall l :: 0 <= l < |v.published| ==> v.published[l].ticket != ticket
    requires v.pending.Some? ==> ticket < v.pending.value.ticket
    ensures Drained(v).published[k].ticket != ticket
  {
    DrainExtends(v);
    var d, n := Drained(v), |v.published|;
    if k < n {
      assert d.published[k] == v.published[k];
    } else if v.pending.Some? {
      assert PublishedPair(d.published, n, k);
    }
  }

  /** The pending snapshot is published as it is, and no other for its ticket. */
  lemma {:induction false} PendingIsPublished(v: View, version: nat)
    requires InOrder(v) && v.pending.Some?
    ensures HasVersion(Drained(v).published, v.pending.value.ticket, version) <==>
            version == v.pending.value.snapshot.version
  {
    DrainExtends(v);
    var ps, n := Drained(v).published, |v.published|;
    forall k | 0 <= k < |ps| && ps[k].ticket == v.pending.value.ticket ensures k == n {
      assert PublishedPair(ps, k, n) && PublishedPair(ps, n, k);
    }
  }

  lemma {:induction false} GetsNothing(v: View, i: nat, version: nat)
    requires InOrder(v) && v.pending.Some? && i < |v.queued| && i < FirstAllowed(v.queued, v.hot)
    ensures !HasVersion(Drained(v).published, v.tickets[i], version)
  {
    var k, w := FirstAllowed(v.queued, v.hot), Switched(v);
    SwitchedParts(v);
    SwitchOrdered(v);
    assert QueuedAt(v, i);
    forall l | 0 <= l < |w.published| ensures w.published[l].ticket != v.tickets[i] {
      assert l < |v.published| ==> PublishedAt(v, l);
    }
    if k < |v.tickets| {
      assert QueuedPair(v.tickets, i, k);
    }
    forall l | 0 <= l < |Drained(w).published| ensures Drained(w).published[l].ticket != v.tickets[i] {
      PassedOver(w, v.tickets[i], l);
    }
  }

  lemma {:induction false} GetsNext(v: View, i: nat, version: nat)
    requires InOrder(v) && v.pending.Some? && i < |v.queued| && i == FirstAllowed(v.queued, v.hot)
    ensures HasVersion(Drained(v).published, v.tickets[i], version) <==> version == v.pending.value.snapshot.version + 1
  {
    SwitchedParts(v);
    SwitchOrdered(v);
    PendingIsPublished(Switched(v), version);
  }

  /** Draining publishes the i-th queued request with the version it is granted, and with no other. */
  ghost predicate Gets(v: View, i: nat, version: nat)
    requires v.pending.Some? && i < |v.tickets| == |v.queued|
  {
    HasVersion(Drained(v).published, v.tickets[i], version) <==>
    Granted(v.pending.value.snapshot.version, v.queued, v.hot, i) == Some(version)
  }

  /** The queue that is left once a request ahead of the i-th is promoted. */
  lemma {:induction false} LeftBehind(v: View, i: nat)
    requires v.pending.Some? && |v.tickets| == |v.queued| && FirstAllowed(v.queued, v.hot) < i < |v.queued|
    ensures var w := Switched(v);
            w.pending.Some? && i - FirstAllowed(v.queued, v.hot) - 1 < |w.tickets| == |w.queued| < |v.queued|
  {
  }

  lemma {:induction false} GrantedLater(version: nat, queued: seq<Values>, hot: set<string>, i: nat)
    requires FirstAllowed(queued, hot) < i < |queued|
    ensures var k := FirstAllowed(queued, hot);
            Granted(version, queued, hot, i) == Granted(version + 1, queued[k + 1..], hot, i - k - 1)
  {
  }

  /** A request behind the one that is promoted fares as it does in the queue that is left. */
  lemma {:induction false} GetsLater(v: View, w: View, i: nat, version: nat)
    requires v.pending.Some? && |v.tickets| == |v.queued| && FirstAllowed(v.queued, v.hot) < i < |v.queued|
    requires var k := FirstAllowed(v.queued, v.hot);
             && w.tickets == v.tickets[k + 1..] && w.queued == v.queued[k + 1..] && w.hot == v.hot
             && w.pending.Some? && w.pending.value.snapshot.version == v.pending.value.snapshot.version + 1
             && Gets(w, i - k - 1, version)
    requires Drained(v).published == Drained(w).published
    ensures Gets(v, i, version)
  {
    var k := FirstAllowed(v.queued, v.hot);
    assert w.tickets[i - k - 1] == v.tickets[i];
    GrantedLater(v.pending.value.snapshot.version, v.queued, v.hot, i);
  }

  /** Granted is what draining publishes. */
  lemma {:induction false} DrainGrants(v: View, i: nat, version: nat)
    requires InOrder(v) && v.pending.Some? && i < |v.queued|
    ensures Gets(v, i, version)
    decreases |v.queued|
  {
    var k := FirstAllowed(v.queued, v.hot);
    if i < k {
      GetsNothing(v, i, version);
    } else if i == k {
      GetsNext(v, i, version);
    } else {
      LeftBehind(v, i);
      SwitchOrdered(v);
      DrainGrants(Switched(v), i - k - 1, version);
      SwitchedParts(v);
      GetsLater(v, Switched(v), i, version);
    }
  }

  /**
   * The i-th queued request is published with the version i + 1 places behind
   * the pending one exactly when it and all requests ahead of it are allowed by
   * the hot keys in force.
   */
  lemma {:induction false} PromiseKeptIff(v: View, i: nat)
    requires InOrder(v) && v.pending.Some? && i < |v.queued|
    ensures HasVersion(Drained(v).published, v.tickets[i], v.pending.value.snapshot.version + i + 1) <==>
            AllAllowed(v.queued[..i + 1], v.hot)
  {
    DrainGrants(v, i, v.pending.value.snapshot.version + i + 1);
    GrantedIff(v.pending.value.snapshot.version, v.queued, v.hot, i);
  }

  // -------------------------------------------------------------------------
  // Promises

  /** The versions promised to the requests in line are the next ones. */
  ghost predicate OnTrack(v: View) {
    && InOrder(v)
    && (v.pending.Some? ==> v.promised[v.pending.value.ticket] == v.pending.value.snapshot.version)
    && forall i :: 0 <= i < |v.tickets| ==> OnTrackAt(v, i)
  }

  ghost predicate OnTrackAt(v: View, i: nat)
    requires i < |v.tickets|
  {
    && v.pending.Some? && v.tickets[i] < |v.promised|
    && v.promised[v.tickets[i]] == v.pending.value.snapshot.version + i + 1
  }

  /** Without another submit, the i-th queued request is published with the version it was promised. */
  ghost predicate KeptAt(v: View, i: nat)
    requires i < |v.tickets| == |v.queued|
  {
    v.tickets[i] < |v.promised| && HasVersion(Drained(v).published, v.tickets[i], v.promised[v.tickets[i]])
  }

  /** The same for all requests in line. */
  ghost predicate PromisesKept(v: View)
    requires InOrder(v)
  {
    && (v.pending.Some? ==>
          HasVersion(Drained(v).published, v.pending.value.ticket, v.promised[v.pending.value.ticket]))
    && forall i :: 0 <= i < |v.tickets| ==> KeptAt(v, i)
  }

  lemma {:induction false} KeptAtIff(v: View, i: nat)
    requires OnTrack(v) && i < |v.queued|
    ensures KeptAt(v, i) <==> AllAllowed(v.queued[..i + 1], v.hot)
  {
    assert OnTrackAt(v, i);
    PromiseKeptIff(v, i);
  }

  lemma {:induction false} AllowedUpTo(vs: seq<Values>, hot: set<string>, i: nat)
    requires AllAllowed(vs, hot) && i <= |vs|
    ensures AllAllowed(vs[..i], hot)
  {
  }

  lemma {:induction false} AllPromisesKeptIff(v: View)
    requires OnTrack(v)
    ensures PromisesKept(v) <==> AllAllowed(v.queued, v.hot)
  {
    if v.pending.Some? {
      PendingIsPublished(v, v.promised[v.pending.value.ticket]);
    }
    if AllAllowed(v.queued, v.hot) {
      forall i | 0 <= i < |v.tickets| ensures KeptAt(v, i) {
        KeptAtIff(v, i);
        AllowedUpTo(v.queued, v.hot, i + 1);
      }
    } else {
      var k := |v.queued| - 1;
      KeptAtIff(v, k);
      assert v.queued[..k + 1] == v.queued;
    }
  }

  lemma {:induction false} SubmitOnTrack(v: View, values: Values, hot: set<string>)
    requires OnTrack(v)
    ensures OnTrack(Submitted(v, values, hot))
  {
    SubmitOrdered(v, values, hot);
    var w := Submitted(v, values, hot);
    forall i | 0 <= i < |w.tickets| ensures OnTrackAt(w, i) {
      assert i < |v.tickets| ==> OnTrackAt(v, i);
    }
  }

  /** After a submit the promises outstanding are kept exactly when the new hot keys cover what was queued. */
  lemma {:induction false} SubmitKeepsPromisesIff(v: View, values: Values, hot: set<string>)
    requires OnTrack(v) && Allowed(values, hot)
    ensures OnTrack(Submitted(v, values, hot))
    ensures PromisesKept(Submitted(v, values, hot)) <==> AllAllowed(v.queued, hot)
  {
    var w := Submitted(v, values, hot);
    SubmitOnTrack(v, values, hot);
    AllPromisesKeptIff(w);
    assert forall i :: 0 <= i < |v.queued| ==> w.queued[i] == v.queued[i];
  }

  // -------------------------------------------------------------------------
  // Runs in which no promise is at risk

  /** Every accepted submit of the run brings hot keys that cover the requests queued before it. */
  ghost predicate Covering(views: seq<View>, steps: seq<Step>)
    requires |views| == |steps| + 1
  {
    forall k :: 0 <= k < |steps| && steps[k].Submit? && Allowed(steps[k].values, steps[k].hot) ==>
      AllAllowed(views[k].queued, steps[k].hot)
  }

  ghost predicate Kept(v: View, k: nat)
    requires k < |v.published|
  {
    k < |v.promised| && v.published[k].ticket == k && v.published[k].snapshot.version == v.promised[k]
  }

  ghost predicate InLine(v: View, i: nat)
    requires i < |v.tickets|
  {
    v.tickets[i] == |v.published| + 1 + i
  }

  /** The first n tickets are published, the others are in line, and nothing is dropped. */
  ghost predicate OnSchedule(v: View) {
    && OnTrack(v) && AllAllowed(v.queued, v.hot)
    && |v.submitted| == |v.published| + |v.queued| + (if v.pending.Some? then 1 else 0)
    && (forall k :: 0 <= k < |v.published| ==> Kept(v, k))
    && (v.pending.Some? ==> v.pending.value.ticket == |v.published|)
    && (forall i :: 0 <= i < |v.tickets| ==> InLine(v, i))
  }

  lemma {:induction false} SubmitOnSchedule(v: View, values: Values, hot: set<string>)
    requires OnSchedule(v) && (Allowed(values, hot) ==> AllAllowed(v.queued, hot))
    ensures OnSchedule(Submitted(v, values, hot))
  {
    var w := Submitted(v, values, hot);
    SubmitOnTrack(v, values, hot);
    forall k | 0 <= k < |w.published| ensures Kept(w, k) {
      assert Kept(v, k);
    }
    forall i | 0 <= i < |w.tickets| ensures InLine(w, i) {
      assert i < |v.tickets| ==> InLine(v, i);
    }
  }

  lemma {:induction false} SwitchOnSchedule(v: View)
    requires OnSchedule(v)
    ensures OnSchedule(Switched(v))
  {
    var w := Switched(v);
    SwitchOrdered(v);
    if v.pending.Some? {
      SwitchedParts(v);
      if v.queued != [] {
        assert Allowed(v.queued[0], v.hot);
        FirstIs(v.queued, v.hot, 0);
      }
      forall k | 0 <= k < |w.published| ensures Kept(w, k) {
        assert k < |v.published| ==> Kept(v, k);
      }
      if v.queued != [] {
        assert OnTrackAt(v, 0) && InLine(v, 0);
      }
      forall i | 0 <= i < |w.tickets| ensures OnTrackAt(w, i) && InLine(w, i) {
        assert OnTrackAt(v, i + 1) && InLine(v, i + 1);
      }
    }
  }

  lemma {:induction false} RunOnSchedule(initial: Values, views: seq<View>, steps: seq<Step>, i: nat)
    requires IsRun(initial, views, steps) && Covering(views, steps) && i < |views|
    ensures OnSchedule(views[i])
  {
    if i > 0 {
      RunOnSchedule(initial, views, steps, i - 1);
      match steps[i - 1]
      case Submit(values, hot) => SubmitOnSchedule(views[i - 1], values, hot);
      case Switch => SwitchOnSchedule(views[i - 1]);
    }
  }

  lemma {:induction false} PublishedIsFold(initial: Values, v: View, k: nat)
    requires Chained(initial, v) && OnSchedule(v) && k < |v.published|
    ensures k < |v.submitted| && v.published[k].snapshot.values == Fold(initial, v.submitted[..k + 1])
  {
    assert ChainedAt(initial, v.published, v.submitted, k) && Kept(v, k);
    FoldMore(initial, v.submitted, k);
    if k > 0 {
      PublishedIsFold(initial, v, k - 1);
    } else {
      assert v.submitted[..0] == [];
    }
  }

  /**
   * The version Submit returned is the version of the first published snapshot
   * that holds the update: snapshot k is the fold of the first k + 1 updates,
   * carries the version promised for the k-th, and all updates not yet
   * published are in line.
   */
  lemma {:induction false} PromisesHoldOverRuns(initial: Values, views: seq<View>, steps: seq<Step>, i: nat, k: nat)
    requires IsRun(initial, views, steps) && Covering(views, steps) && i < |views| && k < |views[i].published|
    ensures var v := views[i];
            && k < |v.submitted| == |v.promised|
            && v.published[k] == Entry(k, Snapshot(v.promised[k], Fold(initial, v.submitted[..k + 1])))
            && v.promised[k] == k + 2
            && |v.submitted| == |v.published| + |v.queued| + (if v.pending.Some? then 1 else 0)
  {
    RunOnSchedule(initial, views, steps, i);
    RunLawful(initial, views, steps, i);
    PublishedIsFold(initial, views[i], k);
    ChainVersions(initial, views[i], k);
    assert Kept(views[i], k);
  }

  ghost predicate OneHotList(steps: seq<Step>, hot: set<string>) {
    forall k :: 0 <= k < |steps| && steps[k].Submit? ==> steps[k].hot == hot
  }

  /** One hot list for the whole run covers everything. */
  lemma {:induction false} FixedHotListCovers(initial: Values, views: seq<View>, steps: seq<Step>, hot: set<string>)
    requires IsRun(initial, views, steps) && OneHotList(steps, hot)
    ensures Covering(views, steps)
  {
    forall k | 0 <= k < |steps| && steps[k].Submit? && Allowed(steps[k].values, steps[k].hot)
      ensures AllAllowed(views[k].queued, steps[k].hot)
    {
      QueuedAreHot(initial, views, steps, hot, k);
    }
  }

  lemma {:induction false} QueuedAreHot(initial: Values, views: seq<View>, steps: seq<Step>, hot: set<string>, i: nat)
    requires IsRun(initial, views, steps) && OneHotList(steps, hot) && i < |views|
    ensures AllAllowed(views[i].queued, hot)
  {
    if i > 0 {
      QueuedAreHot(initial, views, steps, hot, i - 1);
      assert views[i] == Do(views[i - 1], steps[i - 1]);
    }
  }

  /**
   * A later submit with other hot keys breaks earlier promises: the second
   * request is dropped, and the third, promised version 4, becomes version 3.
   */
  lemma {:induction false} LaterSubmitBreaksPromise() returns (views: seq<View>, steps: seq<Step>)
    ensures IsRun(map[], views, steps) && |steps| == 5 && steps[3].Switch? && steps[4].Switch?
    ensures views[5].promised == [2, 3, 4] && views[5].pending.None? && views[5].queued == []
    ensures HasVersion(views[5].published, 2, 3)
    ensures forall version: nat :: !HasVersion(views[5].published, 1, version)
  {
    var x, y := map["a" := "1"], map["b" := "2"];
    steps := [Submit(x, {"a", "b"}), Submit(x, {"a", "b"}), Submit(y, {"b"}), Switch, Switch];
    var v0 := Start(map[]);
    var v1 := Do(v0, steps[0]);
    var v2 := Do(v1, steps[1]);
    var v3 := Do(v2, steps[2]);
    assert v3.queued == [x, y] && v3.tickets == [1, 2] && v3.promised == [2, 3, 4];
    assert "a" in x.Keys && !Allowed(x, {"b"}) && Allowed(y, {"b"});
    FirstIs([x, y], {"b"}, 1);
    var v4 := Do(v3, steps[3]);
    assert v4.queued == [] && v4.pending.value.ticket == 2 && v4.pending.value.snapshot.version == 3;
    var v5 := Do(v4, steps[4]);
    assert v5.published[1].ticket == 2 && v5.published[0].ticket == 0 && |v5.published| == 2;
    views := [v0, v1, v2, v3, v4, v5];
  }

  // -------------------------------------------------------------------------
  // What an update does to the values

  /** after has the values of the update, and those of before for all other keys. */
  predicate TakesEffect(before: Values, update: Values, after: Values) {
    && after.Keys == before.Keys + update.Keys
    && forall x :: x in after ==> after[x] == if x in update then update[x] else before[x]
  }

  lemma {:induction false} MergeTakesEffect(before: Values, update: Values)
    ensures TakesEffect(before, update, Merge(before, update))
  {
  }

  /** The updates that were accepted, read off the steps: those that name hot keys only. */
  function Requests(steps: seq<Step>): seq<Values> {
    if steps == [] then []
    else
      var a := steps[|steps| - 1];
      Requests(steps[..|steps| - 1]) +
        if a.Submit? && (forall x :: x in a.values ==> x in a.hot) then [a.values] else []
  }

  lemma {:induction false} SubmittedAreRequests(initial: Values, views: seq<View>, steps: seq<Step>, i: nat)
    requires IsRun(initial, views, steps) && i < |views|
    ensures views[i].submitted == Requests(steps[..i])
  {
    if i > 0 {
      SubmittedAreRequests(initial, views, steps, i - 1);
      assert steps[..i][..i - 1] == steps[..i - 1];
      assert views[i] == Do(views[i - 1], steps[i - 1]);
    }
  }

  /**
   * Whatever the hot keys: every snapshot published has the values of the update
   * it was made for, and for all other keys those of the snapshot before.
   */
  lemma {:induction false} UpdatesTakeEffect(initial: Values, views: seq<View>, steps: seq<Step>, i: nat, k: nat)
    requires IsRun(initial, views, steps) && i < |views| && k < |views[i].published|
    ensures views[i].published[k].ticket < |Requests(steps[..i])|
    ensures TakesEffect(if k == 0 then initial else views[i].published[k - 1].snapshot.values,
                        Requests(steps[..i])[views[i].published[k].ticket], views[i].published[k].snapshot.values)
  {
    RunLawful(initial, views, steps, i);
    SubmittedAreRequests(initial, views, steps, i);
    var v := views[i];
    assert ChainedAt(initial, v.published, v.submitted, k);
    MergeTakesEffect(Before(initial, v.published, k).values, v.submitted[v.published[k].ticket]);
  }

  /** The last of the first n updates that names the key. */
  predicate IsLatest(updates: seq<Values>, n: nat, x: string, j: nat) {
    j < n <= |updates| && x in updates[j] && forall l :: j < l < n ==> x !in updates[l]
  }

  predicate NeverNamed(updates: seq<Values>, n: nat, x: string) {
    n <= |updates| && forall l :: 0 <= l < n ==> x !in updates[l]
  }

  /**
   * Where every update takes its turn, the k-th snapshot has for each key the
   * value of the last of the first k + 1 updates that names it, else the initial
   * one.
   */
  lemma {:induction false} LatestUpdateWins(initial: Values, views: seq<View>, steps: seq<Step>, i: nat, k: nat,
                                            x: string, j: nat)
    requires IsRun(initial, views, steps) && Covering(views, steps) && i < |views| && k < |views[i].published|
    ensures var values, updates := views[i].published[k].snapshot.values, Requests(steps[..i]);
            && (IsLatest(updates, k + 1, x, j) ==> x in values && values[x] == updates[j][x])
            && (NeverNamed(updates, k + 1, x) ==>
                  (x in values <==> x in initial) && (x in values ==> values[x] == initial[x]))
  {
    PromisesHoldOverRuns(initial, views, steps, i, k);
    UpdatesTakeEffect(initial, views, steps, i, k);
    var updates := Requests(steps[..i]);
    assert views[i].published[k].ticket == k;
    if k > 0 {
      LatestUpdateWins(initial, views, steps, i, k - 1, x, j);
    }
  }

  // -------------------------------------------------------------------------
  // The store

  class Store {
    var current: Snapshot
    var pending: Option<Snapshot>
    var queued: seq<Values>
    var lastHot: set<string>
    ghost const initial: Values
    ghost var view: View

    /** The fields are those of the view, and the view is one a run may lead to. */
    ghost predicate Valid()
      reads this
    {
      && current == view.current && lastHot == view.hot && queued == view.queued
      && pending == (if view.pending.Some? then Some(view.pending.value.snapshot) else None)
      && Lawful(initial, view)
    }

    constructor (initial: Values)
      ensures Valid() && view == Start(initial) && this.initial == initial && OnTrack(view)
    {
      this.initial := initial;
      current, pending, queued, lastHot := Snapshot(1, initial), None, [], {};
      view := Start(initial);
    }

    /**
     * Returns the version promised to the update. If all promises were on
     * track, they are now kept exactly when the new hot keys cover the requests
     * that were queued.
     */
    method Submit(request: Values, hot: set<string>) returns (s: Status, version: nat)
      requires Valid()
      modifies this
      ensures Valid() && view == Do(old(view), Step.Submit(request, hot))
      ensures s == if forall x :: x in request ==> x in hot then Ok else ParameterUnsupported
      ensures !s.Ok? ==> current == old(current) && pending == old(pending) && queued == old(queued) && lastHot == old(lastHot)
      ensures s.Ok? ==> lastHot == hot && current == old(current)
      ensures s.Ok? && old(pending).Some? ==> pending == old(pending) && queued == old(queued) + [request]
      ensures s.Ok? && old(pending).None? ==>
                && queued == old(queued) && pending.Some? && pending.value.version == version == current.version + 1
                && TakesEffect(current.values, request, pending.value.values)
      ensures s.Ok? ==> |view.promised| == |old(view).promised| + 1 && version == view.promised[|old(view).promised|]
      ensures s.Ok? && OnTrack(old(view)) ==>
                OnTrack(view) && (PromisesKept(view) <==> AllAllowed(old(queued), hot))
    {
      version := 0;
      if !Allowed(request, hot) {
        return ParameterUnsupported, version;
      }
      SubmitLawful(initial, view, request, hot);
      if OnTrack(view) {
        SubmitKeepsPromisesIff(view, request, hot);
      }
      lastHot, view := hot, Submitted(view, request, hot);
      if pending.Some? {
        queued := queued + [request];
        return Ok, pending.value.version + |queued|;
      }
      MergeTakesEffect(current.values, request);
      pending := Some(Snapshot(current.version + 1, Merge(current.values, request)));
      return Ok, pending.value.version;
    }

    /** Makes the next queued request that is still allowed pending. */
    method PromoteQueued()
      requires pending.None?
      modifies this`pending, this`queued
      ensures FirstAllowed(old(queued), lastHot) == |old(queued)| ==> queued == [] && pending.None?
      ensures FirstAllowed(old(queued), lastHot) < |old(queued)| ==>
                && queued == old(queued)[FirstAllowed(old(queued), lastHot) + 1..]
                && pending == Some(Next(current, 0, old(queued)[FirstAllowed(old(queued), lastHot)]).snapshot)
    {
      ghost var j, q := 0, queued;
      while queued != [] && pending.None?
        invariant 0 <= j <= |q| && queued == q[j..]
        invariant pending.None? ==> forall i :: 0 <= i < j ==> !Allowed(q[i], lastHot)
        invariant pending.Some? ==>
                    && 0 < j && IsFirst(q, lastHot, j - 1)
                    && pending.value == Snapshot(current.version + 1, Merge(current.values, q[j - 1]))
        decreases |queued|
      {
        var request := queued[0];
        queued := queued[1..];
        j := j + 1;
        if Allowed(request, lastHot) {
          pending := Some(Snapshot(current.version + 1, Merge(current.values, request)));
        }
      }
      FirstIs(q, lastHot, if pending.Some? then j - 1 else |q|);
    }

    /** Publishes the pending snapshot, if there is one, and promotes the next request still allowed. */
    method SwitchAtPacketBoundary() returns (version: Option<nat>)
      requires Valid()
      modifies this
      ensures Valid() && view == Do(old(view), Switch)
      ensures version.Some? <==> old(pending).Some?
      ensures version.Some? ==> Some(current) == old(pending) && version.value == current.version
      ensures version.None? ==> current == old(current) && pending.None? && queued == old(queued)
      ensures lastHot == old(lastHot)
    {
      if pending.None? {
        return None;
      }
      SwitchLawful(initial, view);
      SwitchedParts(view);
      version := Some(pending.value.version);
      current, pending := pending.value, None;
      PromoteQueued();
      view := Switched(view);
    }
  }
}
