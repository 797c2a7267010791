/**
 * The edges of an input port are edge channels: what an operation of a channel
 * does is what steps of the port's own model of that edge do.
 */
module PortEdges {
  import opened Wrappers
  import opened EdgeChannels
  import P = InputPorts

  ghost predicate SamePackets(q: seq<PacketRef>, c: P.Chan) {
    |q| == |c.queue| <= |c.kept| && forall i :: 0 <= i < |c.queue| ==> q[i] == Some(c.queue[i])
  }

  /** The channel holds the packets of the edge, and is as open as the edge. */
  ghost predicate Shows(ch: EdgeChannel, c: P.Chan)
    reads ch
  {
    && SamePackets(ch.queue, c)
    && (ch.state.Retired? <==> c.state.Retired?) && (Closed(ch.state) <==> Closed(c.state))
  }

  /** The steps, each accepted, lead from c to d. */
  ghost predicate LeadTo(c: P.Chan, steps: seq<P.Outside>, d: P.Chan)
    decreases steps
  {
    if steps == [] then d == c
    else P.Accepts(c, steps[0]) && LeadTo(P.Change(c, steps[0]), steps[1..], d)
  }

  lemma {:induction false} OneStep(c: P.Chan, a: P.Outside)
    requires P.Accepts(c, a)
    ensures LeadTo(c, [a], P.Change(c, a))
  {
    assert LeadTo(P.Change(c, a), [a][1..], P.Change(c, a));
  }

  lemma {:induction false} TwoSteps(c: P.Chan, a: P.Outside, b: P.Outside)
    requires P.Accepts(c, a) && P.Accepts(P.Change(c, a), b)
    ensures LeadTo(c, [a, b], P.Change(P.Change(c, a), b))
  {
    OneStep(P.Change(c, a), b);
    assert [a, b][1..] == [b];
  }

  lemma {:induction false} Appended(q: seq<PacketRef>, c: P.Chan, p: Packet)
    requires SamePackets(q, c) && !Closed(c.state)
    ensures SamePackets(q + [Some(p)], P.Change(c, P.Push(p))) && P.Change(c, P.Push(p)).state == c.state
  {
  }

  lemma {:induction false} Evicted(q: seq<PacketRef>, c: P.Chan, k: nat)
    requires SamePackets(q, c) && !Closed(c.state) && k < |q|
    ensures SamePackets(q[..k] + q[k + 1..], P.Change(c, P.Evict(k))) && P.Change(c, P.Evict(k)).state == c.state
  {
  }

  /** A push is one push, or an eviction and a push, or nothing, as its outcome says. */
  method Push(ch: EdgeChannel, p: Packet, ghost c: P.Chan)
    returns (o: PushOutcome, ghost steps: seq<P.Outside>, ghost d: P.Chan)
    requires ch.Valid() && Shows(ch, c)
    modifies ch, ch.ring
    ensures ch.Valid() && Shows(ch, d) && LeadTo(c, steps, d)
    ensures match o
            case Accepted => steps == [P.Push(p)] || (p.Eos? && steps == [])
            case AcceptedDroppedOldest => |steps| == 2 && steps[0].Evict? && steps[1] == P.Push(p)
            case _ => steps == []
  {
    ghost var was := ch.queue;
    o := ch.Push(Some(p));
    steps, d := [], c;
    if o.Accepted? && |ch.queue| > |was| {
      OneStep(c, P.Push(p));
      Appended(was, c, p);
      steps, d := [P.Push(p)], P.Change(c, P.Push(p));
    } else if o.AcceptedDroppedOldest? {
      ghost var k: nat :| IsOldestData(was, k) && ch.queue == was[..k] + was[k + 1..] + [Some(p)];
      Evicted(was, c, k);
      Appended(was[..k] + was[k + 1..], P.Change(c, P.Evict(k)), p);
      TwoSteps(c, P.Evict(k), P.Push(p));
      steps, d := [P.Evict(k), P.Push(p)], P.Change(P.Change(c, P.Evict(k)), P.Push(p));
    }
  }

  /** An injected marker is one marker, unless one is last already or there is no room. */
  method InjectEos(ch: EdgeChannel, ghost c: P.Chan) returns (o: PushOutcome, ghost steps: seq<P.Outside>, ghost d: P.Chan)
    requires ch.Valid() && Shows(ch, c)
    modifies ch, ch.ring
    ensures ch.Valid() && Shows(ch, d) && LeadTo(c, steps, d)
    ensures steps == [P.InjectEos] || steps == []
    ensures o.Accepted? ==> ch.queue != [] && ch.queue[|ch.queue| - 1] == Some(Eos)
  {
    ghost var was := ch.queue;
    o := ch.InjectEos();
    steps, d := [], c;
    if |ch.queue| > |was| {
      OneStep(c, P.InjectEos);
      steps, d := [P.InjectEos], P.Change(c, P.InjectEos);
    }
  }

  /** Draining and retiring are the steps of that name. */
  method MarkDraining(ch: EdgeChannel, ghost c: P.Chan)
    requires ch.Valid() && Shows(ch, c)
    modifies ch`state
    ensures ch.Valid() && Shows(ch, P.Change(c, P.MarkDraining))
  {
    ch.MarkDraining();
  }

  method MarkRetired(ch: EdgeChannel, fast: bool, ghost c: P.Chan)
    requires ch.Valid() && Shows(ch, c)
    modifies ch, ch.ring
    ensures ch.Valid() && Shows(ch, P.Change(c, P.Retire(fast)))
  {
    ch.MarkRetired(fast);
  }

  /** A pop takes what the edge has first. */
  method Pop(ch: EdgeChannel, ghost c: P.Chan) returns (p: Option<PacketRef>)
    requires ch.Valid() && Shows(ch, c)
    modifies ch, ch.ring
    ensures ch.Valid() && (p.None? <==> c.queue == [])
    ensures if c.queue == [] then Shows(ch, c)
            else p == Some(Some(c.queue[0])) && Shows(ch, c.(queue := c.queue[1..]))
  {
    p := ch.Pop();
  }
}
