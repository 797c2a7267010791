/**
 * What the turns of an aligned acquire do to the packets of a port: why each
 * data packet left the queue, and which one of those in the window is taken.
 */
module AlignedTurns {
  import opened Wrappers
  import opened EdgeChannels
  import opened InputPorts
  import opened InputBinding

  // -------------------------------------------------------------------------
  // Why a packet left its queue

  lemma {:induction false} SkipsWiden(p: Port, q: Port, oldest: int)
    requires SkipsOnly(p, q, None)
    ensures SkipsOnly(p, q, Some(oldest))
  {
    forall k | |p.popped| <= k < |q.popped| && q.popped[k].packet.Data? ensures Skipped(q, q.popped[k], Some(oldest)) {
      assert Skipped(q, q.popped[k], None);
    }
  }

  /** Until the ports are classified, a turn only passes over stale data and data older than the window. */
  lemma {:induction false} PassedOver(ports: seq<Port>, qs: seq<Port>, window: int, fixed: Option<nat>, o: Outcome,
                                      t: Turned, i: nat)
    requires IsTurn(ports, qs, window, fixed, o, t) && t.Tried? && i < |ports|
    ensures i < |t.sorted| && SkipsOnly(ports[i], t.sorted[i], Some(t.target - window))
  {
    assert SkipsAt(ports, t.found, None, i) && SkipsAt(t.found, t.sorted, Some(t.target - window), i);
    SkipsWiden(ports[i], t.found[i], t.target - window);
    SkipsThrough(ports[i], t.found[i], t.sorted[i], Some(t.target - window));
  }

  /** An entry is the head its port showed once classified. */
  lemma {:induction false} EntryIsHead(found: seq<Port>, qs: seq<Port>, ref: nat, target: int, window: int,
                                       fixed: Option<nat>, o: Outcome, sorted: seq<Port>, sts: seq<Standing>, i: nat)
    requires Settles(found, qs, ref, target, window, fixed, o, sorted, sts) && o.Serve? && i in PortsOf(o.entries)
    ensures i < |sorted| && Bound(sorted[i]) && Head(sorted[i]).Some?
    ensures Item(i, Head(sorted[i]).value) in o.entries && InWindow(Item(i, Head(sorted[i]).value), ref, target, window)
    ensures forall k :: 0 <= k < |o.entries| && o.entries[k].port == i ==> Some(o.entries[k].packet) == Head(sorted[i])
  {
    var fs, gs := Faces(found), Faces(sorted);
    var picks := Picks(gs, sts, ref);
    EntriesDeliver(picks, |gs|);
    var k :| 0 <= k < |o.entries| && o.entries[k].port == i;
    assert picks[i] == Some(o.entries[k].packet);
    PickInWindow(fs, gs, ref, target, window, sts, i);
    FaceAt(sorted, i);
    assert TakenAt(sorted, qs, TakenBy(o, ref), i);
    assert o.entries[k] == Item(i, Head(sorted[i]).value);
  }

  /** A required port shows data later than the window of the target. */
  ghost predicate Overtaken(ports: seq<Port>, latest: int) {
    exists j :: 0 <= j < |ports| && Faces(ports)[j].required && Beyond(Faces(ports)[j], latest)
  }

  lemma {:induction false} AgainIsOvertaken(found: seq<Port>, qs: seq<Port>, ref: nat, target: int, window: int,
                                            fixed: Option<nat>, sorted: seq<Port>, sts: seq<Standing>)
    requires Settles(found, qs, ref, target, window, fixed, Again, sorted, sts)
    ensures fixed.None? && ref < |sorted| && Bound(sorted[ref]) && ShowsPts(Head(sorted[ref]), target)
    ensures Overtaken(sorted, target + window)
  {
    var fs, gs := Faces(found), Faces(sorted);
    assert gs[ref] == fs[ref];
    assert TakenAt(sorted, qs, {ref}, ref);
    FaceAt(sorted, ref);
    var j :| 0 <= j < |gs| && IsPast(gs[j], sts[j], j, ref);
    assert Stands(gs[j].front, target, window, sts[j]);
  }

  /**
   * Every data packet a turn pops is stale, or older than the window, or is
   * delivered, or is a reference that some required port has left behind.
   */
  lemma {:induction false} WhyPopped(ports: seq<Port>, qs: seq<Port>, window: int, fixed: Option<nat>, o: Outcome,
                                     t: Turned, i: nat, k: nat)
    requires IsTurn(ports, qs, window, fixed, o, t) && t.Tried? && i < |ports| == |qs|
    requires |ports[i].popped| <= k < |qs[i].popped| && qs[i].popped[k].packet.Data?
    ensures var x := qs[i].popped[k];
            || Skipped(qs[i], x, Some(t.target - window))
            || (o.Serve? && Item(i, x.packet) in o.entries)
            || (o.Again? && fixed.None? && i == t.ref && x.packet.pts == t.target && Overtaken(t.sorted, t.target + window))
  {
    var q := t.sorted[i];
    PassedOver(ports, qs, window, fixed, o, t, i);
    assert TakenAt(t.sorted, qs, TakenBy(o, t.ref), i);
    if k < |q.popped| {
      assert qs[i].popped[k] == q.popped[k];
      assert Skipped(q, q.popped[k], Some(t.target - window));
    } else if o.Serve? {
      EntryIsHead(t.found, qs, t.ref, t.target, window, fixed, o, t.sorted, t.standings, i);
    } else {
      AgainIsOvertaken(t.found, qs, t.ref, t.target, window, fixed, t.sorted, t.standings);
    }
  }

  /** With a fixed reference there is no second try. */
  lemma {:induction false} FixedTakesOneTurn(path: seq<seq<Port>>, ts: seq<Turned>, window: int, fixed: Option<nat>,
                                             o: Outcome)
    requires IsPath(path, ts, window, fixed, o) && fixed.Some? && ts != []
    ensures |ts| == 1
  {
    assert TurnAt(path, ts, window, fixed, o, 0);
  }

  // -------------------------------------------------------------------------
  // Which packet in the window is taken

  predicate Candidate(x: Packet, target: int, window: int) {
    x.Data? && target - window <= x.pts <= target + window
  }

  function Distance(x: Packet, target: int): nat
    requires x.Data?
  {
    if x.pts < target then target - x.pts else x.pts - target
  }

  predicate Closer(x: Packet, y: Packet, target: int, window: int)
    requires y.Data?
  {
    Candidate(x, target, window) && Distance(x, target) < Distance(y, target)
  }

  /** x is queued, lies in the window, and no packet queued with it that does is closer to the target. */
  ghost predicate IsClosest(queue: seq<Packet>, x: Packet, target: int, window: int) {
    x in queue && Candidate(x, target, window) && forall y :: y in queue ==> !Closer(y, x, target, window)
  }

  /** The queue a port is read from. */
  function Shown(p: Port): seq<Packet>
    requires Bound(p)
  {
    ActiveInLine(p);
    if Active(p).Some? then p.chans[Active(p).value].queue else []
  }

  /**
   * A port other than the reference contributes the first packet its queue
   * shows after dropping what is older than the window. That is the packet
   * closest to the target if and only if none behind it is strictly closer.
   */
  lemma {:induction false} ContributesClosestIff(ports: seq<Port>, qs: seq<Port>, window: int, fixed: Option<nat>,
                                                 o: Outcome, t: Turned, k: nat)
    requires IsTurn(ports, qs, window, fixed, o, t) && o.Serve? && k < |o.entries| && o.entries[k].port != o.ref
    ensures t.Tried? && o.entries[k].port < |t.sorted| && Bound(t.sorted[o.entries[k].port])
    ensures var queue, x := Shown(t.sorted[o.entries[k].port]), o.entries[k].packet;
            && queue != [] && queue[0] == x && Candidate(x, o.target, window)
            && (IsClosest(queue, x, o.target, window) <==>
                forall j :: 0 < j < |queue| ==> !Closer(queue[j], x, o.target, window))
  {
    var i, x := o.entries[k].port, o.entries[k].packet;
    assert i in PortsOf(o.entries);
    EntryIsHead(t.found, qs, t.ref, t.target, window, fixed, o, t.sorted, t.standings, i);
    var queue := Shown(t.sorted[i]);
    assert forall y :: y in queue ==> y == x || exists j :: 0 < j < |queue| && queue[j] == y;
  }

  ghost predicate Ascending(queue: seq<Packet>) {
    && (forall i :: 0 <= i < |queue| ==> queue[i].Data?)
    && (forall i, j :: 0 <= i < j < |queue| ==> queue[i].pts < queue[j].pts)
  }

  /** With data in order of time, only the next packet needs to be looked at. */
  lemma {:induction false} ClosestIffNextIsNotCloser(queue: seq<Packet>, target: int, window: int)
    requires Ascending(queue) && queue != [] && Candidate(queue[0], target, window)
    ensures IsClosest(queue, queue[0], target, window) <==>
            |queue| == 1 || !Closer(queue[1], queue[0], target, window)
  {
    if |queue| > 1 && !Closer(queue[1], queue[0], target, window) {
      forall y | y in queue ensures !Closer(y, queue[0], target, window) {
        var j :| 0 <= j < |queue| && queue[j] == y;
        assert j > 1 ==> queue[1].pts < queue[j].pts;
        assert queue[0].pts < queue[1].pts;
      }
    }
  }

  // -------------------------------------------------------------------------
  // The farther of two

  function Fed(name: string, e: EdgeId, queue: seq<Packet>): Port {
    Port(name, true, Some(e), [], map[e := Chan(queue, EdgeActive, queue)], false, map[e := 0], 1, [], {})
  }

  /** A port fed by one open edge whose queue starts with data is left alone while that is not too old. */
  lemma {:induction false} FedIsCalm(name: string, e: EdgeId, queue: seq<Packet>, oldest: Option<int>)
    requires queue != [] && queue[0].Data? && (oldest.Some? ==> oldest.value <= queue[0].pts)
    ensures var p := Fed(name, e, queue);
            Bound(p) && Calm(p, oldest) && Head(p) == Some(queue[0]) && Shown(p) == queue
            && FaceOf(p).front == Some(queue[0]) && FaceOf(p).required && !FaceOf(p).ended
  {
    var p := Fed(name, e, queue);
    assert Line(p) == [e];
  }

  lemma {:induction false} FedIsValid(name: string, e: EdgeId, queue: seq<Packet>)
    ensures Valid(Fed(name, e, queue))
  {
    var p := Fed(name, e, queue);
    assert Line(p) == [e];
    assert From([], e) + queue == queue;
  }

  /** A reference at 5, and a port with packets at 0 and at 5: both lie in a window of 5. */
  function Reference(): Port {
    Fed("video", 0, [Data(5, 1)])
  }

  function Other(): Port {
    Fed("audio", 1, [Data(0, 2), Data(5, 3)])
  }

  lemma {:induction false} TwoTurn(qs: seq<Port>, o: Outcome, t: Turned)
    requires IsTurn([Reference(), Other()], qs, 5, Some(0), o, t)
    ensures t.Tried? && t.ref == 0 && t.target == 5 && t.sorted == [Reference(), Other()] == t.found
  {
    var ports := [Reference(), Other()];
    FedIsCalm("video", 0, [Data(5, 1)], None);
    FedIsCalm("audio", 1, [Data(0, 2), Data(5, 3)], None);
    assert SkipsAt(ports, t.found, None, 0) && SkipsAt(ports, t.found, None, 1);
    assert t.found == ports;
    FaceAt(ports, 0);
    assert t.Tried? && t.target == 5;
    FedIsCalm("video", 0, [Data(5, 1)], Some(0));
    FedIsCalm("audio", 1, [Data(0, 2), Data(5, 3)], Some(0));
    assert SkipsAt(ports, t.sorted, Some(0), 0) && SkipsAt(ports, t.sorted, Some(0), 1);
    assert t.sorted == ports;
  }

  /**
   * Whatever turns an aligned acquire of these two ports takes, it delivers the
   * packet at 0 with the reference at 5, though the one at 5 is queued.
   */
  lemma {:induction false} FartherIsTaken(path: seq<seq<Port>>, ts: seq<Turned>, o: Outcome)
    requires IsPath(path, ts, 5, Some(0), o) && ts != [] && path[0] == [Reference(), Other()]
    ensures Valid(Reference()) && Valid(Other())
    ensures o == Outcome.Serve([Item(0, Data(5, 1)), Item(1, Data(0, 2))], 0, 5)
    ensures Bound(Other()) && !IsClosest(Shown(Other()), Data(0, 2), 5, 5)
    ensures IsClosest(Shown(Other()), Data(5, 3), 5, 5)
  {
    FedIsCalm("video", 0, [Data(5, 1)], None);
    FedIsCalm("audio", 1, [Data(0, 2), Data(5, 3)], None);
    FedIsValid("video", 0, [Data(5, 1)]);
    FedIsValid("audio", 1, [Data(0, 2), Data(5, 3)]);
    assert TurnAt(path, ts, 5, Some(0), o, 0);
    var o0 := if 0 == |ts| - 1 then o else Again;
    TwoTurn(path[1], o0, ts[0]);
    TwoDecide(path[1], o0, ts[0].standings);
    assert Data(5, 3) in Shown(Other());
  }

  lemma {:induction false} TwoDecide(qs: seq<Port>, o: Outcome, sts: seq<Standing>)
    requires Settles([Reference(), Other()], qs, 0, 5, 5, Some(0), o, [Reference(), Other()], sts)
    ensures o == Outcome.Serve([Item(0, Data(5, 1)), Item(1, Data(0, 2))], 0, 5)
  {
    var ports := [Reference(), Other()];
    FedIsCalm("video", 0, [Data(5, 1)], None);
    FedIsCalm("audio", 1, [Data(0, 2), Data(5, 3)], None);
    FaceAt(ports, 0);
    FaceAt(ports, 1);
    var gs := Faces(ports);
    assert Stands(gs[1].front, 5, 5, sts[1]);
    assert sts[1].Within?;
    var picks := Picks(gs, sts, 0);
    assert picks[0] == Some(Data(5, 1)) && picks[1] == Some(Data(0, 2));
    assert EntriesOf(picks, 1) == [Item(0, Data(5, 1))];
  }
}
