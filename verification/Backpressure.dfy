/**
 * Block-policy backpressure of one node: emitting threads push or park, and a
 * retry pass pushes a snapshot of the parked packets and writes back the rest.
 * Every lock-protected section is one step; a pass runs concurrently with
 * emits, but with no other pass.
 */
module Backpressure {
  type Edge = nat
  type Emitter = nat
  type Packet = int

  /** A packet on its way to an edge, with the thread that emitted it. */
  datatype Entry = Entry(edge: Edge, packet: Packet, owner: Emitter)

  /** What an emitting thread is about to do with its packet. */
  datatype Hand = Empty | Unparked(e: Entry) | Behind(e: Entry) | Refused(e: Entry)

  datatype Pass = NoPass | Pass(work: seq<Entry>, i: nat, still: seq<Entry>, blocked: set<Edge>)

  /** emitted and accepted are the histories of emits and of successful pushes. */
  datatype State = State(
    parked: seq<Entry>, pass: Pass, hands: map<Emitter, Hand>, emitted: seq<Entry>, accepted: seq<Entry>)

  datatype Step =
    | Emit(e: Entry)                          // look for packets parked for the edge
    | Push(owner: Emitter, full: bool)          // nothing was parked: push, or find the edge full
    | Park(owner: Emitter)                       // append to the parked list
    | Snapshot                                // a retry pass copies the parked list
    | Retry(full: bool)                       // it tries the next packet of its copy
    | WriteBack                               // it replaces the copy by what is still refused

  predicate ParkedFor(parked: seq<Entry>, edge: Edge) {
    exists k :: 0 <= k < |parked| && parked[k].edge == edge
  }

  predicate Enabled(s: State, a: Step) {
    match a
    case Emit(e) => e.owner in s.hands && s.hands[e.owner].Empty?
    case Push(t, _) => t in s.hands && s.hands[t].Unparked?
    case Park(t) => t in s.hands && (s.hands[t].Behind? || s.hands[t].Refused?)
    case Snapshot => s.pass.NoPass?
    case Retry(_) => s.pass.Pass? && s.pass.i < |s.pass.work|
    case WriteBack => s.pass.Pass? && s.pass.i >= |s.pass.work|
  }

  /** One turn of the loop over the snapshot. */
  function RetryOne(p: Pass, full: bool): Pass
    requires p.Pass? && p.i < |p.work|
  {
    var w := p.work[p.i];
    if w.edge in p.blocked then p.(i := p.i + 1, still := p.still + [w])
    else if full then p.(i := p.i + 1, still := p.still + [w], blocked := p.blocked + {w.edge})
    else p.(i := p.i + 1)
  }

  predicate Delivers(p: Pass, full: bool)
    requires p.Pass? && p.i < |p.work|
  {
    p.work[p.i].edge !in p.blocked && !full
  }

  function Do(s: State, a: Step): State
    requires Enabled(s, a)
  {
    match a
    case Emit(e) =>
      s.(hands := s.hands[e.owner := if ParkedFor(s.parked, e.edge) then Behind(e) else Unparked(e)],
         emitted := s.emitted + [e])
    case Push(t, full) =>
      var e := s.hands[t].e;
      if full then s.(hands := s.hands[t := Refused(e)])
      else s.(hands := s.hands[t := Empty], accepted := s.accepted + [e])
    case Park(t) =>
      s.(hands := s.hands[t := Empty], parked := s.parked + [s.hands[t].e])
    case Snapshot =>
      if s.parked == [] then s else s.(pass := Pass(s.parked, 0, [], {}))
    case Retry(full) =>
      s.(pass := RetryOne(s.pass, full),
         accepted := if Delivers(s.pass, full) then s.accepted + [s.pass.work[s.pass.i]] else s.accepted)
    case WriteBack =>
      var appended := if |s.parked| >= |s.pass.work| then s.parked[|s.pass.work|..] else [];
      s.(parked := s.pass.still + appended, pass := NoPass)
  }

  predicate Init(s: State) {
    && s.parked == [] && s.pass.NoPass? && s.emitted == [] && s.accepted == []
    && forall t :: t in s.hands ==> s.hands[t].Empty?
  }

  // -------------------------------------------------------------------------
  // The packets one thread sent to one edge

  function Of(xs: seq<Entry>, edge: Edge, owner: Emitter): seq<Entry> {
    if xs == [] then []
    else Of(xs[..|xs| - 1], edge, owner) +
         if xs[|xs| - 1].edge == edge && xs[|xs| - 1].owner == owner then [xs[|xs| - 1]] else []
  }

  lemma {:induction false} OfAppend(xs: seq<Entry>, ys: seq<Entry>, edge: Edge, owner: Emitter)
    ensures Of(xs + ys, edge, owner) == Of(xs, edge, owner) + Of(ys, edge, owner)
  {
    if ys == [] {
      assert xs + ys == xs;
    } else {
      var k := |ys| - 1;
      assert (xs + ys)[..|xs + ys| - 1] == xs + ys[..k];
      OfAppend(xs, ys[..k], edge, owner);
    }
  }

  lemma {:induction false} OfOne(e: Entry, edge: Edge, owner: Emitter)
    ensures Of([e], edge, owner) == if e.edge == edge && e.owner == owner then [e] else []
  {
    assert [e][..0] == [];
  }

  lemma {:induction false} OfNone(xs: seq<Entry>, edge: Edge, owner: Emitter)
    requires forall k :: 0 <= k < |xs| ==> !(xs[k].edge == edge && xs[k].owner == owner)
    ensures Of(xs, edge, owner) == []
  {
    if xs != [] {
      OfNone(xs[..|xs| - 1], edge, owner);
    }
  }

  // -------------------------------------------------------------------------
  // What is really still waiting

  /** The parked packets, less those a running pass has already delivered. */
  function Waiting(s: State): seq<Entry> {
    match s.pass
    case NoPass => s.parked
    case Pass(work, i, still, _) =>
      if i <= |work| <= |s.parked| then still + work[i..] + s.parked[|work|..] else []
  }

  function InHand(h: Hand): seq<Entry> {
    if h.Empty? then [] else [h.e]
  }

  /** The pass works on a prefix of the parked list, and skips only blocked edges. */
  ghost predicate PassOk(s: State) {
    s.pass.Pass? ==>
      && s.pass.i <= |s.pass.work| <= |s.parked|
      && s.pass.work == s.parked[..|s.pass.work|]
      && (forall k :: 0 <= k < |s.pass.still| ==> s.pass.still[k].edge in s.pass.blocked && s.pass.still[k] in s.pass.work)
  }

  /** A thread that found nothing parked has nothing of its own waiting at that edge. */
  ghost predicate HandsOk(s: State) {
    forall t :: t in s.hands && !s.hands[t].Empty? ==>
      && s.hands[t].e.owner == t
      && (!s.hands[t].Behind? ==> NoneParked(s.parked, s.hands[t].e.edge, t))
  }

  ghost predicate NoneParked(parked: seq<Entry>, edge: Edge, owner: Emitter) {
    forall k :: 0 <= k < |parked| ==> !(parked[k].edge == edge && parked[k].owner == owner)
  }

  ghost predicate KeptFor(s: State, edge: Edge, owner: Emitter) {
    owner in s.hands ==>
      Of(s.emitted, edge, owner)
      == Of(s.accepted, edge, owner) + Of(Waiting(s), edge, owner) + Of(InHand(s.hands[owner]), edge, owner)
  }

  ghost predicate Kept(s: State) {
    forall edge, owner :: KeptFor(s, edge, owner)
  }

  ghost predicate Safe(s: State) {
    PassOk(s) && HandsOk(s) && Kept(s)
  }

  // -------------------------------------------------------------------------
  // Shape invariants

  lemma {:induction false} WaitingIsParked(s: State, x: Entry)
    requires PassOk(s) && x in Waiting(s)
    ensures x in s.parked
  {
  }

  lemma {:induction false} NoneWaiting(s: State, edge: Edge, owner: Emitter)
    requires PassOk(s) && NoneParked(s.parked, edge, owner)
    ensures Of(Waiting(s), edge, owner) == []
  {
    var w := Waiting(s);
    forall k | 0 <= k < |w| ensures !(w[k].edge == edge && w[k].owner == owner) {
      WaitingIsParked(s, w[k]);
    }
    OfNone(w, edge, owner);
  }

  lemma {:induction false} PassOkStep(s: State, a: Step)
    requires PassOk(s) && Enabled(s, a)
    ensures PassOk(Do(s, a))
  {
  }

  lemma {:induction false} HandsOkStep(s: State, a: Step)
    requires PassOk(s) && HandsOk(s) && Enabled(s, a)
    ensures HandsOk(Do(s, a))
  {
    if a.WriteBack? {
      var s' := Do(s, a);
      assert s'.parked == Waiting(s);
      forall t | t in s.hands && !s.hands[t].Empty? && !s.hands[t].Behind?
        ensures NoneParked(s'.parked, s.hands[t].e.edge, t)
      {
        forall k | 0 <= k < |s'.parked| ensures !(s'.parked[k].edge == s.hands[t].e.edge && s'.parked[k].owner == t) {
          WaitingIsParked(s, s'.parked[k]);
        }
      }
    }
  }

  // -------------------------------------------------------------------------
  // Nothing is lost, duplicated or overtaken

  lemma {:induction false} EmitKeeps(s: State, e: Entry, edge: Edge, owner: Emitter)
    requires KeptFor(s, edge, owner) && Enabled(s, Emit(e))
    ensures KeptFor(Do(s, Emit(e)), edge, owner)
  {
    OfAppend(s.emitted, [e], edge, owner);
    OfOne(e, edge, owner);
  }

  /** A packet moves from the hand of its thread to the accepted ones. */
  lemma {:induction false} HandToAccepted(accepted: seq<Entry>, waiting: seq<Entry>, hand: seq<Entry>, e: Entry,
        edge: Edge, owner: Emitter)
    requires e.edge == edge && e.owner == owner ==> Of(waiting, edge, owner) == [] && hand == [e]
    ensures e.edge == edge && e.owner == owner ==>
            Of(accepted + [e], edge, owner) + Of(waiting, edge, owner)
            == Of(accepted, edge, owner) + Of(waiting, edge, owner) + Of(hand, edge, owner)
    ensures !(e.edge == edge && e.owner == owner) ==> Of(accepted + [e], edge, owner) == Of(accepted, edge, owner)
  {
    OfAppend(accepted, [e], edge, owner);
    OfOne(e, edge, owner);
  }

  lemma {:induction false} PushKeeps(s: State, t: Emitter, full: bool, edge: Edge, owner: Emitter)
    requires PassOk(s) && HandsOk(s) && KeptFor(s, edge, owner) && Enabled(s, Push(t, full))
    ensures KeptFor(Do(s, Push(t, full)), edge, owner)
  {
    var e, s' := s.hands[t].e, Do(s, Push(t, full));
    assert Waiting(s') == Waiting(s) && s'.emitted == s.emitted;
    if full {
      assert owner in s.hands ==> InHand(s'.hands[owner]) == InHand(s.hands[owner]);
    } else if owner in s.hands {
      NoneWaiting(s, e.edge, t);
      HandToAccepted(s.accepted, Waiting(s), InHand(s.hands[owner]), e, edge, owner);
      OfOne(e, edge, owner);
      assert owner == t ==> InHand(s'.hands[owner]) == [];
    }
  }

  lemma {:induction false} Assoc<T>(a: seq<T>, b: seq<T>, c: seq<T>)
    ensures a + (b + c) == a + b + c
    ensures a + b + [] == a + b
  {
  }

  lemma {:induction false} ParkedWaits(s: State, t: Emitter)
    requires PassOk(s) && Enabled(s, Park(t))
    ensures Waiting(Do(s, Park(t))) == Waiting(s) + [s.hands[t].e]
  {
  }

  lemma {:induction false} ParkKeeps(s: State, t: Emitter, edge: Edge, owner: Emitter)
    requires PassOk(s) && HandsOk(s) && KeptFor(s, edge, owner) && Enabled(s, Park(t))
    ensures KeptFor(Do(s, Park(t)), edge, owner)
  {
    var e := s.hands[t].e;
    ParkedWaits(s, t);
    OfAppend(Waiting(s), [e], edge, owner);
    OfOne(e, edge, owner);
    if owner == t {
      var h := Of([e], edge, owner);
      Assoc(Of(s.accepted, edge, owner), Of(Waiting(s), edge, owner), h);
      Assoc(Of(s.accepted, edge, owner), Of(Waiting(s), edge, owner) + h, []);
    }
  }

  lemma {:induction false} MoveForward<T>(a: seq<T>, b: seq<T>, h: seq<T>, c: seq<T>)
    requires b == [] || h == []
    ensures a + (b + (h + c)) == (a + h) + (b + c)
  {
    if b == [] {
      assert b + (h + c) == h + c && b + c == c;
    } else {
      assert h + c == c && a + h == a;
    }
  }

  /** Taking a delivered packet out of the middle leaves the rest in order. */
  lemma {:induction false} WaitingToAccepted(accepted: seq<Entry>, still: seq<Entry>, w: Entry, rest: seq<Entry>,
        edge: Edge, owner: Emitter)
    requires w.edge == edge ==> Of(still, edge, owner) == []
    ensures Of(accepted, edge, owner) + Of(still + ([w] + rest), edge, owner)
         == Of(accepted + [w], edge, owner) + Of(still + rest, edge, owner)
  {
    OfAppend(accepted, [w], edge, owner);
    OfOne(w, edge, owner);
    OfAppend(still, [w] + rest, edge, owner);
    OfAppend([w], rest, edge, owner);
    OfAppend(still, rest, edge, owner);
    MoveForward(Of(accepted, edge, owner), Of(still, edge, owner), Of([w], edge, owner), Of(rest, edge, owner));
  }

  lemma {:induction false} SkipOne<T>(still: seq<T>, work: seq<T>, i: nat, tail: seq<T>)
    requires i < |work|
    ensures still + work[i..] + tail == still + ([work[i]] + (work[i + 1..] + tail))
    ensures still + [work[i]] + work[i + 1..] + tail == still + work[i..] + tail
    ensures still + work[i + 1..] + tail == still + (work[i + 1..] + tail)
  {
  }

  /** A delivery takes its packet out of the waiting ones; a refusal leaves them alone. */
  lemma {:induction false} RetryWaits(s: State, full: bool) returns (rest: seq<Entry>)
    requires PassOk(s) && Enabled(s, Retry(full))
    ensures Waiting(s) == s.pass.still + ([s.pass.work[s.pass.i]] + rest)
    ensures Waiting(Do(s, Retry(full))) == if Delivers(s.pass, full) then s.pass.still + rest else Waiting(s)
  {
    var p, p', tail := s.pass, RetryOne(s.pass, full), s.parked[|s.pass.work|..];
    rest := p.work[p.i + 1..] + tail;
    SkipOne(p.still, p.work, p.i, tail);
    assert Waiting(s) == p.still + p.work[p.i..] + tail;
    assert Waiting(Do(s, Retry(full))) == p'.still + p.work[p.i + 1..] + tail;
    assert p'.still == if Delivers(p, full) then p.still else p.still + [p.work[p.i]];
  }

  lemma {:induction false} RetryKeeps(s: State, full: bool, edge: Edge, owner: Emitter)
    requires PassOk(s) && KeptFor(s, edge, owner) && Enabled(s, Retry(full))
    ensures KeptFor(Do(s, Retry(full)), edge, owner)
  {
    var p, w := s.pass, s.pass.work[s.pass.i];
    var rest := RetryWaits(s, full);
    if Delivers(p, full) {
      if w.edge == edge {
        OfNone(p.still, edge, owner);
      }
      WaitingToAccepted(s.accepted, p.still, w, rest, edge, owner);
    }
  }

  lemma {:induction false} PassKeeps(s: State, a: Step, edge: Edge, owner: Emitter)
    requires PassOk(s) && KeptFor(s, edge, owner) && Enabled(s, a) && (a.Snapshot? || a.WriteBack?)
    ensures KeptFor(Do(s, a), edge, owner)
  {
    assert Waiting(Do(s, a)) == Waiting(s);
  }

  lemma {:induction false} StepKeeps(s: State, a: Step, edge: Edge, owner: Emitter)
    requires PassOk(s) && HandsOk(s) && KeptFor(s, edge, owner) && Enabled(s, a)
    ensures KeptFor(Do(s, a), edge, owner)
  {
    match a
    case Emit(e) => EmitKeeps(s, e, edge, owner);
    case Push(t, full) => PushKeeps(s, t, full, edge, owner);
    case Park(t) => ParkKeeps(s, t, edge, owner);
    case Retry(full) => RetryKeeps(s, full, edge, owner);
    case _ => PassKeeps(s, a, edge, owner);
  }

  lemma {:induction false} StepSafe(s: State, a: Step)
    requires Safe(s) && Enabled(s, a)
    ensures Safe(Do(s, a))
  {
    PassOkStep(s, a);
    HandsOkStep(s, a);
    forall edge, owner ensures KeptFor(Do(s, a), edge, owner) {
      StepKeeps(s, a, edge, owner);
    }
  }

  ghost predicate IsRun(states: seq<State>, steps: seq<Step>) {
    && |states| == |steps| + 1
    && Init(states[0])
    && forall i :: 0 <= i < |steps| ==> Enabled(states[i], steps[i]) && states[i + 1] == Do(states[i], steps[i])
  }

  lemma {:induction false} RunSafe(states: seq<State>, steps: seq<Step>, i: nat)
    requires IsRun(states, steps) && i < |states|
    ensures Safe(states[i]) && states[i].hands.Keys == states[0].hands.Keys
  {
    if i > 0 {
      RunSafe(states, steps, i - 1);
      StepSafe(states[i - 1], steps[i - 1]);
      assert states[i].hands.Keys == states[i - 1].hands.Keys;
    }
  }

  /**
   * Over every interleaving of emits and retry passes: what a thread emitted to
   * an edge is what the edge accepted from it, then what waits, then what the
   * thread still has in hand, in order and each packet once.
   */
  lemma {:induction false} NothingLostOrReordered(states: seq<State>, steps: seq<Step>, i: nat, edge: Edge,
        owner: Emitter)
    requires IsRun(states, steps) && i < |states| && owner in states[0].hands
    ensures owner in states[i].hands
    ensures Of(Emits(steps[..i]), edge, owner)
         == Of(states[i].accepted, edge, owner) + Of(Waiting(states[i]), edge, owner)
            + Of(InHand(states[i].hands[owner]), edge, owner)
  {
    EmittedAreEmits(states, steps, i);
    RunSafe(states, steps, i);
    assert KeptFor(states[i], edge, owner);
  }

  /** The packets handed to Emit, read off the steps. */
  function Emits(steps: seq<Step>): seq<Entry> {
    if steps == [] then []
    else
      var a := steps[|steps| - 1];
      Emits(steps[..|steps| - 1]) + if a.Emit? then [a.e] else []
  }

  lemma {:induction false} EmittedAreEmits(states: seq<State>, steps: seq<Step>, i: nat)
    requires IsRun(states, steps) && i < |states|
    ensures states[i].emitted == Emits(steps[..i])
  {
    if i > 0 {
      EmittedAreEmits(states, steps, i - 1);
      assert steps[..i][..i - 1] == steps[..i - 1];
      assert states[i] == Do(states[i - 1], steps[i - 1]);
    }
  }

  // -------------------------------------------------------------------------
  // What is pushed, and when

  /**
   * An emit goes straight to the edge exactly when nothing is parked for that
   * edge, and is then accepted exactly when the edge has room; it is parked
   * behind the others exactly when it is not.
   */
  lemma {:induction false} PushedUnlessParkedOrFull(states: seq<State>, steps: seq<Step>, i: nat)
    requires IsRun(states, steps) && i < |steps|
    ensures steps[i].Emit? ==>
              var e, h := steps[i].e, states[i + 1].hands;
              && e.owner in h
              && h[e.owner] == if exists x :: x in states[i].parked && x.edge == e.edge then Behind(e) else Unparked(e)
    ensures steps[i].Push? ==>
              var t := steps[i].owner;
              && t in states[i].hands && states[i].hands[t].Unparked? && t in states[i + 1].hands
              && (if steps[i].full
                  then states[i + 1].hands[t] == Refused(states[i].hands[t].e) && states[i + 1].accepted == states[i].accepted
                  else states[i + 1].hands[t].Empty? && states[i + 1].accepted == states[i].accepted + [states[i].hands[t].e])
    ensures steps[i].Park? ==>
              var t := steps[i].owner;
              && t in states[i].hands && !states[i].hands[t].Empty? && t in states[i + 1].hands
              && states[i + 1].hands[t].Empty? && states[i + 1].parked == states[i].parked + [states[i].hands[t].e]
  {
    if steps[i].Emit? {
      var parked, edge := states[i].parked, steps[i].e.edge;
      assert ParkedFor(parked, edge) <==> exists x :: x in parked && x.edge == edge by {
        if x :| x in parked && x.edge == edge {
          var k :| 0 <= k < |parked| && parked[k] == x;
        }
      }
    }
    assert states[i + 1] == Do(states[i], steps[i]);
  }

  /** The packets a pass has tried or skipped between two moments. */
  function Tries(steps: seq<Step>, a: nat, m: nat): nat
    requires a < m <= |steps|
    decreases m
  {
    if m == a + 1 then 0 else Tries(steps, a, m - 1) + if steps[m - 1].Retry? then 1 else 0
  }

  /** The edges that have answered full in the pass. */
  function FullEdges(steps: seq<Step>, work: seq<Entry>, a: nat, m: nat): set<Edge>
    requires a < m <= |steps|
    decreases m
  {
    if m == a + 1 then {}
    else
      var k := Tries(steps, a, m - 1);
      FullEdges(steps, work, a, m - 1) + if steps[m - 1] == Retry(true) && k < |work| then {work[k].edge} else {}
  }

  /** A pass begins at step a and has not been written back before moment m. */
  ghost predicate InPass(states: seq<State>, steps: seq<Step>, a: nat, m: nat) {
    && a < m < |states| && m <= |steps| && steps[a].Snapshot? && states[a].pass.NoPass? && states[a].parked != []
    && forall l :: a < l < m ==> !steps[l].WriteBack?
  }

  lemma {:induction false} PassProgress(states: seq<State>, steps: seq<Step>, a: nat, m: nat)
    requires IsRun(states, steps) && InPass(states, steps, a, m)
    ensures states[m].pass.Pass? && states[m].pass.work == states[a].parked
    ensures states[m].pass.i == Tries(steps, a, m) && states[m].pass.blocked == FullEdges(steps, states[a].parked, a, m)
  {
    assert states[a + 1] == Do(states[a], steps[a]);
    if m > a + 1 {
      PassProgress(states, steps, a, m - 1);
      assert states[m] == Do(states[m - 1], steps[m - 1]);
      PassStep(states[m - 1], steps[m - 1]);
    }
  }

  lemma {:induction false} PassStep(s: State, a: Step)
    requires Enabled(s, a) && s.pass.Pass? && !a.WriteBack?
    ensures !a.Retry? ==> Do(s, a).pass == s.pass
    ensures a.Retry? ==>
              && s.pass.i < |s.pass.work| && Do(s, a).pass.Pass? && Do(s, a).pass.work == s.pass.work
              && Do(s, a).pass.i == s.pass.i + 1
              && Do(s, a).pass.blocked == s.pass.blocked + if a.full then {s.pass.work[s.pass.i].edge} else {}
  {
  }

  /**
   * A retry pass takes up the parked packets one by one, in order. A packet
   * leaves exactly when its edge has room and has not answered full to a packet
   * before it in the same pass; every other edge is tried regardless.
   */
  lemma {:induction false} PassDeliversWhatFits(states: seq<State>, steps: seq<Step>, a: nat, m: nat)
    requires IsRun(states, steps) && InPass(states, steps, a, m) && m < |steps| && steps[m].Retry?
    ensures Tries(steps, a, m) < |states[a].parked|
    ensures var w := states[a].parked[Tries(steps, a, m)];
            states[m + 1].accepted ==
              if !steps[m].full && w.edge !in FullEdges(steps, states[a].parked, a, m)
              then states[m].accepted + [w] else states[m].accepted
  {
    PassProgress(states, steps, a, m);
    assert states[m + 1] == Do(states[m], steps[m]);
  }

  /** What an edge has accepted is never taken back. */
  lemma {:induction false} AcceptedGrows(states: seq<State>, steps: seq<Step>, i: nat, j: nat)
    requires IsRun(states, steps) && i <= j < |states|
    ensures states[i].accepted <= states[j].accepted
  {
    if i < j {
      AcceptedGrows(states, steps, i, j - 1);
    }
  }

  // -------------------------------------------------------------------------
  // A node invoked by one thread at a time

  function For(xs: seq<Entry>, edge: Edge): seq<Entry> {
    if xs == [] then []
    else For(xs[..|xs| - 1], edge) + if xs[|xs| - 1].edge == edge then [xs[|xs| - 1]] else []
  }

  ghost predicate AllBy(xs: seq<Entry>, owner: Emitter) {
    forall k :: 0 <= k < |xs| ==> xs[k].owner == owner
  }

  lemma {:induction false} ForIsOf(xs: seq<Entry>, edge: Edge, owner: Emitter)
    requires AllBy(xs, owner)
    ensures For(xs, edge) == Of(xs, edge, owner)
  {
    if xs != [] {
      ForIsOf(xs[..|xs| - 1], edge, owner);
    }
  }

  ghost predicate SoleOwner(s: State, owner: Emitter) {
    && s.hands.Keys == {owner}
    && AllBy(s.emitted, owner) && AllBy(s.accepted, owner) && AllBy(s.parked, owner)
    && (s.pass.Pass? ==> AllBy(s.pass.work, owner) && AllBy(s.pass.still, owner))
    && AllBy(InHand(s.hands[owner]), owner)
  }

  lemma {:induction false} SoleOwnerRun(states: seq<State>, steps: seq<Step>, i: nat, owner: Emitter)
    requires IsRun(states, steps) && i < |states| && states[0].hands.Keys == {owner}
    ensures SoleOwner(states[i], owner)
  {
    if i > 0 {
      SoleOwnerRun(states, steps, i - 1, owner);
      RunSafe(states, steps, i - 1);
      SoleOwnerStep(states[i - 1], steps[i - 1], owner);
    }
  }

  lemma {:induction false} SoleOwnerStep(s: State, a: Step, owner: Emitter)
    requires SoleOwner(s, owner) && PassOk(s) && Enabled(s, a)
    ensures SoleOwner(Do(s, a), owner)
  {
    assert a.Emit? ==> a.e.owner in s.hands.Keys;
    assert a.Push? ==> a.owner in s.hands.Keys;
    assert a.Park? ==> a.owner in s.hands.Keys;
  }

  /**
   * With one emitting thread the edge as a whole is first in, first out: its
   * accepted packets followed by the waiting ones are the emitted ones.
   */
  lemma {:induction false} EdgeIsFifo(states: seq<State>, steps: seq<Step>, i: nat, edge: Edge, owner: Emitter)
    requires IsRun(states, steps) && i < |states| && states[0].hands.Keys == {owner}
    ensures owner in states[i].hands
    ensures states[i].emitted == Emits(steps[..i])
    ensures For(states[i].emitted, edge)
         == For(states[i].accepted, edge) + For(Waiting(states[i]), edge) + For(InHand(states[i].hands[owner]), edge)
  {
    var s := states[i];
    EmittedAreEmits(states, steps, i);
    NothingLostOrReordered(states, steps, i, edge, owner);
    SoleOwnerRun(states, steps, i, owner);
    RunSafe(states, steps, i);
    forall k | 0 <= k < |Waiting(s)| ensures Waiting(s)[k].owner == owner {
      WaitingIsParked(s, Waiting(s)[k]);
    }
    ForIsOf(s.emitted, edge, owner);
    ForIsOf(s.accepted, edge, owner);
    ForIsOf(Waiting(s), edge, owner);
    ForIsOf(InHand(s.hands[owner]), edge, owner);
  }

  // -------------------------------------------------------------------------
  // Several emitting threads

  lemma {:induction false} IdleRun(states: seq<State>, steps: seq<Step>, i: nat)
    requires IsRun(states, steps) && i < |states| && states[0].hands.Keys == {}
    ensures states[i].hands.Keys == {} && states[i].pass.NoPass?
    ensures states[i].parked == [] && states[i].emitted == [] && states[i].accepted == []
  {
    if i > 0 {
      IdleRun(states, steps, i - 1);
    }
  }

  /**
   * With two threads only the order per thread survives: a packet that found
   * nothing parked can pass one that was refused and parked meanwhile.
   */
  lemma {:induction false} OvertakingBetweenThreads(owners: set<Emitter>, x: Emitter, y: Emitter, edge: Edge)
    returns (states: seq<State>, steps: seq<Step>)
    requires x in owners && y in owners && x != y
    ensures IsRun(states, steps) && states[0].hands.Keys == owners
    ensures states[|steps|].emitted == [Entry(edge, 10, x), Entry(edge, 20, y)]
    ensures states[|steps|].accepted == [Entry(edge, 20, y)] && states[|steps|].parked == [Entry(edge, 10, x)]
  {
    var s0 := State([], NoPass, map t | t in owners :: Empty, [], []);
    steps := [Emit(Entry(edge, 10, x)), Emit(Entry(edge, 20, y)), Push(x, true), Park(x), Push(y, false)];
    var s1 := Do(s0, steps[0]);
    var s2 := Do(s1, steps[1]);
    var s3 := Do(s2, steps[2]);
    var s4 := Do(s3, steps[3]);
    var s5 := Do(s4, steps[4]);
    states := [s0, s1, s2, s3, s4, s5];
  }

  /** At every point of every run of these threads, the edge accepted what was emitted first. */
  ghost predicate KeepsEmitOrder(owners: set<Emitter>, edge: Edge) {
    forall states: seq<State>, steps: seq<Step>, i ::
      IsRun(states, steps) && 0 <= i < |states| && states[0].hands.Keys == owners
      ==> For(states[i].accepted, edge) <= For(states[i].emitted, edge)
  }

  lemma {:induction false} OneThreadKeepsOrder(owners: set<Emitter>, edge: Edge)
    requires |owners| <= 1
    ensures KeepsEmitOrder(owners, edge)
  {
    forall states: seq<State>, steps: seq<Step>, i | IsRun(states, steps) && 0 <= i < |states| && states[0].hands.Keys == owners
      ensures For(states[i].accepted, edge) <= For(states[i].emitted, edge)
    {
      if owners == {} {
        IdleRun(states, steps, i);
      } else {
        var owner :| owner in owners;
        assert |owners - {owner}| == 0;
        assert owners == {owner};
        EdgeIsFifo(states, steps, i, edge, owner);
      }
    }
  }

  /** An edge is first in, first out exactly when at most one thread emits. */
  lemma {:induction false} OrderKeptIffOneThread(owners: set<Emitter>, edge: Edge)
    ensures KeepsEmitOrder(owners, edge) <==> |owners| <= 1
  {
    if |owners| <= 1 {
      OneThreadKeepsOrder(owners, edge);
    } else {
      var x :| x in owners;
      assert |owners - {x}| > 0;
      var y :| y in owners - {x};
      var states, steps := OvertakingBetweenThreads(owners, x, y, edge);
      var s := states[|steps|];
      assert For(s.accepted, edge) == [Entry(edge, 20, y)] && For(s.emitted, edge)[0] == Entry(edge, 10, x);
      assert !(For(s.accepted, edge) <= For(s.emitted, edge));
    }
  }
}
