/**
 * EdgeChannel: a fixed ring buffer edited in place under one lock, with three
 * drop policies. The ghost field `queue` is the bounded sequence it refines.
 */
module EdgeChannels {
  import opened Wrappers
  import opened GraphModel

  datatype Packet = Data(pts: int, payload: int) | Event(detail: int) | Eos

  /** A packet reference as the source passes it around: possibly null. */
  type PacketRef = Option<Packet>

  predicate IsEos(p: PacketRef) {
    p.Some? && p.value.Eos?
  }

  datatype EdgeState = EdgeActive | Backpressured | EdgeDraining | Retired

  datatype PushOutcome = Accepted | AcceptedDroppedOldest | DroppedNewest | WouldBlockOutcome | Cancelled

  // -------------------------------------------------------------------------
  // The bounded sequence

  predicate Closed(s: EdgeState) {
    s.EdgeDraining? || s.Retired?
  }

  predicate TailHasEos(q: seq<PacketRef>) {
    q != [] && IsEos(q[|q| - 1])
  }

  /** The position of the oldest packet that is not an EOS marker. */
  function FirstData(q: seq<PacketRef>): (k: nat)
    ensures k <= |q|
    ensures forall i :: 0 <= i < k ==> IsEos(q[i])
    ensures k < |q| ==> !IsEos(q[k])
  {
    if q == [] || !IsEos(q[0]) then 0 else 1 + FirstData(q[1..])
  }

  function OutcomeOf(q: seq<PacketRef>, capacity: nat, policy: DropPolicy, s: EdgeState, p: PacketRef): PushOutcome {
    if Closed(s) then Cancelled
    else if IsEos(p) && TailHasEos(q) then Accepted
    else if |q| < capacity then Accepted
    else if IsEos(p) then WouldBlockOutcome
    else match policy
      case DropNewest => DroppedNewest
      case DropOldest => if FirstData(q) == |q| then DroppedNewest else AcceptedDroppedOldest
      case Block => WouldBlockOutcome
  }

  function AfterPush(q: seq<PacketRef>, capacity: nat, policy: DropPolicy, s: EdgeState, p: PacketRef): seq<PacketRef> {
    match OutcomeOf(q, capacity, policy, s, p)
    case Accepted => if IsEos(p) && TailHasEos(q) then q else q + [p]
    case AcceptedDroppedOldest => Without(q, FirstData(q)) + [p]
    case _ => q
  }

  function Markers(q: seq<PacketRef>): nat {
    if q == [] then 0 else Markers(q[..|q| - 1]) + if IsEos(q[|q| - 1]) then 1 else 0
  }

  lemma {:induction false} MarkersAppend(a: seq<PacketRef>, b: seq<PacketRef>)
    ensures Markers(a + b) == Markers(a) + Markers(b)
  {
    if b == [] {
      assert a + b == a;
    } else {
      assert (a + b)[..|a + b| - 1] == a + b[..|b| - 1];
      MarkersAppend(a, b[..|b| - 1]);
    }
  }

  lemma {:induction false} MarkersOne(p: PacketRef)
    ensures Markers([p]) == if IsEos(p) then 1 else 0
  {
    assert [p][..0] == [];
  }

  /**
   * A push never exceeds the capacity and never loses a queued marker; what
   * it keeps stays in order, and it drops at most one packet, the oldest that
   * is not a marker, and only under drop-oldest with a full queue.
   */
  lemma {:induction false} PushKeepsMarkers(q: seq<PacketRef>, capacity: nat, policy: DropPolicy, s: EdgeState,
        p: PacketRef)
    requires |q| <= capacity
    ensures |AfterPush(q, capacity, policy, s, p)| <= capacity
    ensures Markers(AfterPush(q, capacity, policy, s, p)) >= Markers(q)
    ensures AfterPush(q, capacity, policy, s, p) != q ==> TailIs(AfterPush(q, capacity, policy, s, p), p)
    ensures OutcomeOf(q, capacity, policy, s, p).AcceptedDroppedOldest? ==>
              policy.DropOldest? && |q| == capacity && Markers(AfterPush(q, capacity, policy, s, p)) == Markers(q)
  {
    var r := AfterPush(q, capacity, policy, s, p);
    match OutcomeOf(q, capacity, policy, s, p)
    case Accepted =>
      MarkersAppend(q, [p]);
    case AcceptedDroppedOldest =>
      var k := FirstData(q);
      assert q == q[..k] + [q[k]] + q[k + 1..];
      MarkersAppend(q[..k] + [q[k]], q[k + 1..]);
      MarkersAppend(q[..k], [q[k]]);
      MarkersOne(q[k]);
      MarkersAppend(q[..k], q[k + 1..]);
      MarkersAppend(Without(q, k), [p]);
      MarkersOne(p);
    case _ =>
  }

  predicate TailIs(q: seq<PacketRef>, p: PacketRef) {
    q != [] && q[|q| - 1] == p
  }

  predicate Open(s: EdgeState) {
    s.EdgeActive? || s.Backpressured?
  }

  predicate AllMarkers(q: seq<PacketRef>) {
    forall i :: 0 <= i < |q| ==> q[i] == Some(Eos)
  }

  /** Everything ahead of position k is a marker, and what is there is not. */
  predicate IsOldestData(q: seq<PacketRef>, k: nat) {
    k < |q| && q[k] != Some(Eos) && forall i :: 0 <= i < k ==> q[i] == Some(Eos)
  }

  lemma {:induction false} VictimIsOldest(q: seq<PacketRef>)
    ensures FirstData(q) == |q| <==> AllMarkers(q)
    ensures FirstData(q) < |q| ==> IsOldestData(q, FirstData(q))
  {
  }

  // -------------------------------------------------------------------------
  // Positions in the ring

  /** The slot of the i-th queued packet. */
  function Slot(n: nat, head: nat, i: nat): nat {
    if head + i < n then head + i else head + i - n
  }

  lemma {:induction false} Wrap(n: nat, x: nat)
    requires 0 < n && x < n + n
    ensures x % n == if x < n then x else x - n
  {
    if x < n {
      SmallMod(n, x);
    } else {
      assert x == (x - n) + n;
      assert x % n == (x - n) % n;
      SmallMod(n, x - n);
    }
  }

  lemma {:induction false} SmallMod(n: nat, x: nat)
    requires x < n
    ensures x % n == x
  {
  }

  /** The queue while positions k up to j have been overwritten by their successors. */
  ghost function Shifted(q: seq<PacketRef>, k: nat, j: nat): (r: seq<PacketRef>)
    requires k <= j < |q|
    ensures |r| == |q|
  {
    q[..k] + q[k + 1..j + 1] + q[j..]
  }

  lemma {:induction false} ShiftedMore(q: seq<PacketRef>, k: nat, j: nat)
    requires k <= j && j + 1 < |q|
    ensures Shifted(q, k, j)[j := Shifted(q, k, j)[j + 1]] == Shifted(q, k, j + 1)
  {
  }

  class EdgeChannel {
    const ring: array<PacketRef>
    const policy: DropPolicy
    var head: nat
    var size: nat
    var state: EdgeState
    // Metrics
    var pushed: nat
    var popped: nat
    var dropCount: nat
    var wouldBlockCount: nat
    var cancelledCount: nat
    var queueDepth: nat
    var maxDepth: nat

    ghost var queue: seq<PacketRef>
    ghost var evicted: nat
    ghost var cleared: nat

    /** The live slots of the ring hold the queue. */
    ghost predicate Holds(q: seq<PacketRef>)
      reads this, ring
    {
      && 0 < ring.Length && head < ring.Length && size <= ring.Length && |q| == size
      && forall i :: 0 <= i < size ==> ring[Slot(ring.Length, head, i)] == q[i]
    }

    ghost predicate Accounted()
      reads this
    {
      && pushed == popped + |queue| + evicted + cleared
      && queueDepth == |queue| <= maxDepth
    }

    ghost predicate Valid()
      reads this, ring
    {
      Holds(queue) && Accounted()
    }

    /** The counters of packets dropped, refused for lack of room, and cancelled. */
    ghost function Refusals(): (nat, nat, nat)
      reads this
    {
      (dropCount, wouldBlockCount, cancelledCount)
    }

    constructor (capacity: nat, policy: DropPolicy)
      ensures Valid() && fresh(ring) && queue == [] && state == EdgeActive
      ensures this.policy == policy && ring.Length == if capacity < 1 then 1 else capacity
      ensures pushed == popped == maxDepth == 0 && Refusals() == (0, 0, 0)
    {
      this.policy := policy;
      ring := new PacketRef[if capacity < 1 then 1 else capacity](_ => None);
      head, size, state := 0, 0, EdgeActive;
      pushed, popped, dropCount, wouldBlockCount, cancelledCount, queueDepth, maxDepth := 0, 0, 0, 0, 0, 0, 0;
      queue, evicted, cleared := [], 0, 0;
    }

    method PushLocked(p: PacketRef)
      requires Valid() && size < ring.Length
      modifies this, ring
      ensures Valid() && queue == old(queue) + [p]
      ensures state == old(state) && popped == old(popped) && evicted == old(evicted) && cleared == old(cleared)
      ensures maxDepth == if old(maxDepth) < |queue| then |queue| else old(maxDepth)
      ensures Refusals() == old(Refusals())
    {
      Wrap(ring.Length, head + size);
      ring[(head + size) % ring.Length] := p;
      size := size + 1;
      pushed := pushed + 1;
      queueDepth := size;
      if maxDepth < size {
        maxDepth := size;
      }
      queue := queue + [p];
    }

    method Tail() returns (eos: bool)
      requires Valid()
      ensures eos == TailHasEos(queue)
    {
      if size == 0 {
        return false;
      }
      Wrap(ring.Length, head + size - 1);
      return IsEos(ring[(head + size - 1) % ring.Length]);
    }

    /** Skips leading markers: the logical position of the packet to evict. */
    method FindVictim() returns (k: nat)
      requires Valid()
      ensures k == FirstData(queue)
    {
      k := 0;
      var victim := head;
      while k < size && IsEos(ring[victim])
        invariant k <= size && (k < size ==> victim == Slot(ring.Length, head, k))
        invariant k + FirstData(queue[k..]) == FirstData(queue)
      {
        Wrap(ring.Length, victim + 1);
        victim := (victim + 1) % ring.Length;
        assert queue[k..][1..] == queue[k + 1..];
        k := k + 1;
      }
    }

    /** Copies the packet behind position j over it. */
    method ShiftOne(j: nat, ghost q: seq<PacketRef>)
      requires Holds(q) && j + 1 < size
      modifies ring
      ensures Holds(q[j := q[j + 1]])
    {
      Wrap(ring.Length, head + j);
      Wrap(ring.Length, head + j + 1);
      ring[(head + j) % ring.Length] := ring[(head + j + 1) % ring.Length];
    }

    /** Shifts the packets behind position k one slot towards the head. */
    method ShiftOver(k: nat)
      requires Holds(queue) && 0 < k < size
      modifies ring, this`size
      ensures Holds(Without(queue, k))
    {
      for j := k to size - 1
        invariant Holds(Shifted(queue, k, j))
        modifies ring
      {
        ShiftOne(j, Shifted(queue, k, j));
        ShiftedMore(queue, k, j);
      }
      ghost var n := size - 1;
      assert Shifted(queue, k, n)[..n] == Without(queue, k);
      DropLast(Shifted(queue, k, n));
    }

    /** Clears the slot of the last packet. */
    method DropLast(ghost q: seq<PacketRef>)
      requires Holds(q) && 0 < size
      modifies ring, this`size
      ensures Holds(q[..|q| - 1])
    {
      Wrap(ring.Length, head + size - 1);
      ring[(head + size - 1) % ring.Length] := None;
      size := size - 1;
    }

    /** Drops the packet at the head. */
    method AdvanceHead()
      requires Holds(queue) && 0 < size
      modifies ring, this`head, this`size
      ensures Holds(queue[1..])
    {
      ghost var n, h, tail := ring.Length, head, queue[1..];
      Wrap(n, head + 1);
      ring[head] := None;
      head := (head + 1) % ring.Length;
      size := size - 1;
      forall i | 0 <= i < size ensures ring[Slot(n, head, i)] == tail[i] {
        assert Slot(n, head, i) == Slot(n, h, i + 1);
      }
    }

    /** Evicts the packet at logical position k. */
    method Evict(k: nat)
      requires Valid() && k < size
      modifies this, ring
      ensures Valid() && queue == Without(old(queue), k) && evicted == old(evicted) + 1
      ensures state == old(state) && pushed == old(pushed) && popped == old(popped) && cleared == old(cleared)
      ensures maxDepth == old(maxDepth) && Refusals() == old(Refusals())
    {
      ghost var rest := Without(queue, k);
      if k == 0 {
        AdvanceHead();
        assert rest == queue[1..];
      } else {
        ShiftOver(k);
      }
      queueDepth := size;
      queue, evicted := rest, evicted + 1;
    }

    /** Makes room by evicting the oldest packet that is not a marker. */
    method PushOverOldest(p: PacketRef) returns (o: PushOutcome)
      requires Valid() && size == ring.Length
      modifies this, ring
      ensures Valid() && state == old(state) && popped == old(popped) && cleared == old(cleared)
      ensures o == if FirstData(old(queue)) == |old(queue)| then DroppedNewest else AcceptedDroppedOldest
      ensures o.DroppedNewest? ==> queue == old(queue) && evicted == old(evicted)
      ensures o.AcceptedDroppedOldest? ==>
                queue == Without(old(queue), FirstData(old(queue))) + [p] && evicted == old(evicted) + 1
      ensures maxDepth == old(maxDepth)
      ensures Refusals() == (old(dropCount) + 1, old(wouldBlockCount), old(cancelledCount))
    {
      var victim := FindVictim();
      dropCount := dropCount + 1;
      if victim == size {
        return DroppedNewest;
      }
      Evict(victim);
      PushLocked(p);
      return AcceptedDroppedOldest;
    }

    method Push(p: PacketRef) returns (o: PushOutcome)
      requires Valid()
      modifies this, ring
      ensures Valid()
      ensures o == OutcomeOf(old(queue), ring.Length, policy, old(state), p)
      ensures queue == AfterPush(old(queue), ring.Length, policy, old(state), p)
      ensures popped == old(popped) && cleared == old(cleared)
      ensures evicted == old(evicted) + if o.AcceptedDroppedOldest? then 1 else 0
      ensures state == if o.WouldBlockOutcome? && old(state).EdgeActive? then Backpressured else old(state)
      ensures maxDepth == if old(maxDepth) < |queue| then |queue| else old(maxDepth)
      ensures Refusals() == (old(dropCount) + (if o.DroppedNewest? || o.AcceptedDroppedOldest? then 1 else 0),
                             old(wouldBlockCount) + (if o.WouldBlockOutcome? then 1 else 0),
                             old(cancelledCount) + (if o.Cancelled? then 1 else 0))
      ensures old(state).EdgeDraining? || old(state).Retired? ==> o.Cancelled? && queue == old(queue)
      ensures Open(old(state)) && p == Some(Eos) && TailIs(old(queue), p) ==> o.Accepted? && queue == old(queue)
      ensures Open(old(state)) && |old(queue)| < ring.Length && !(p == Some(Eos) && TailIs(old(queue), p)) ==>
                o.Accepted? && queue == old(queue) + [p]
      ensures Open(old(state)) && |old(queue)| == ring.Length && p == Some(Eos) && !TailIs(old(queue), p) ==>
                o.WouldBlockOutcome? && queue == old(queue)
      ensures Open(old(state)) && |old(queue)| == ring.Length && p != Some(Eos) && policy.Block? ==>
                o.WouldBlockOutcome? && queue == old(queue)
      ensures Open(old(state)) && |old(queue)| == ring.Length && p != Some(Eos) && policy.DropNewest? ==>
                o.DroppedNewest? && queue == old(queue)
      ensures Open(old(state)) && |old(queue)| == ring.Length && p != Some(Eos) && policy.DropOldest? ==>
                if AllMarkers(old(queue)) then o.DroppedNewest? && queue == old(queue)
                else o.AcceptedDroppedOldest? && exists k: nat :: IsOldestData(old(queue), k)
                                                             && queue == old(queue)[..k] + old(queue)[k + 1..] + [p]
    {
      if state.EdgeDraining? || state.Retired? {
        cancelledCount := cancelledCount + 1;
        return Cancelled;
      }
      var tail := Tail();
      if IsEos(p) && tail {
        return Accepted;
      }
      if size < ring.Length {
        PushLocked(p);
        return Accepted;
      }
      if IsEos(p) || policy.Block? {
        wouldBlockCount := wouldBlockCount + 1;
        if state.EdgeActive? {
          state := Backpressured;
        }
        return WouldBlockOutcome;
      }
      if policy.DropNewest? {
        dropCount := dropCount + 1;
        return DroppedNewest;
      }
      VictimIsOldest(queue);
      o := PushOverOldest(p);
    }

    method InjectEos() returns (o: PushOutcome)
      requires Valid()
      modifies this, ring
      ensures Valid() && state == old(state) && popped == old(popped) && evicted == old(evicted) && cleared == old(cleared)
      ensures o == if state.Retired? then Cancelled
                   else if TailHasEos(old(queue)) || |old(queue)| < ring.Length then Accepted else WouldBlockOutcome
      ensures queue == if o.Accepted? && !TailHasEos(old(queue)) then old(queue) + [Some(Eos)] else old(queue)
      ensures maxDepth == if old(maxDepth) < |queue| then |queue| else old(maxDepth)
      ensures Refusals() == old(Refusals())
    {
      if state.Retired? {
        return Cancelled;
      }
      var tail := Tail();
      if tail {
        return Accepted;
      }
      if size >= ring.Length {
        return WouldBlockOutcome;
      }
      PushLocked(Some(Eos));
      return Accepted;
    }

    method Pop() returns (p: Option<PacketRef>)
      requires Valid()
      modifies this, ring
      ensures Valid() && state == old(state) && evicted == old(evicted) && cleared == old(cleared)
      ensures p.Some? <==> old(queue) != []
      ensures p.Some? ==> old(queue) == [p.value] + queue && popped == old(popped) + 1
      ensures p.None? ==> queue == [] && popped == old(popped)
      ensures maxDepth == old(maxDepth) && Refusals() == old(Refusals())
    {
      if size == 0 {
        return None;
      }
      p := Some(ring[head]);
      assert ring[Slot(ring.Length, head, 0)] == queue[0];
      AdvanceHead();
      popped := popped + 1;
      queueDepth := size;
      queue := queue[1..];
    }

    method Peek() returns (p: PacketRef)
      requires Valid()
      ensures p == if queue == [] then None else queue[0]
    {
      return if size == 0 then None else ring[head];
    }

    method MarkDraining()
      requires Valid()
      modifies this`state
      ensures Valid() && queue == old(queue)
      ensures state == if Closed(old(state)) then old(state) else EdgeDraining
    {
      if state.EdgeActive? || state.Backpressured? {
        state := EdgeDraining;
      }
    }

    method MarkRetired(fast: bool)
      requires Valid()
      modifies this, ring
      ensures Valid() && state == Retired && popped == old(popped) && evicted == old(evicted)
      ensures queue == if fast then [] else old(queue)
      ensures cleared == old(cleared) + if fast then |old(queue)| else 0
      ensures maxDepth == old(maxDepth) && Refusals() == old(Refusals())
    {
      state := Retired;
      if fast {
        for i := 0 to ring.Length
          invariant head == old(head) && size == old(size) && state == Retired
          invariant queue == old(queue) && Accounted() && cleared == old(cleared)
          invariant popped == old(popped) && evicted == old(evicted)
          invariant maxDepth == old(maxDepth) && Refusals() == old(Refusals())
          modifies ring
        {
          ring[i] := None;
        }
        head, size, queueDepth := 0, 0, 0;
        cleared := cleared + |queue|;
        queue := [];
      }
    }

    method ClearBackpressure() returns (changed: bool)
      requires Valid()
      modifies this`state
      ensures Valid() && queue == old(queue)
      ensures changed <==> old(state).Backpressured? && |queue| < ring.Length
      ensures state == if changed then EdgeActive else old(state)
    {
      if queueDepth >= ring.Length {
        return false;
      }
      changed := state.Backpressured?;
      if changed {
        state := EdgeActive;
      }
    }

    method MarkBackpressured() returns (full: bool)
      requires Valid()
      modifies this`state, this`wouldBlockCount
      ensures Valid() && queue == old(queue)
      ensures full <==> !Closed(old(state)) && |queue| >= ring.Length
      ensures state == if Closed(old(state)) then old(state) else if full then Backpressured else EdgeActive
      ensures wouldBlockCount == old(wouldBlockCount) + if old(state).EdgeActive? then 1 else 0
    {
      if state.EdgeActive? {
        state := Backpressured;
        wouldBlockCount := wouldBlockCount + 1;
      } else if !state.Backpressured? {
        return false;
      }
      if queueDepth >= ring.Length {
        return true;
      }
      var _ := ClearBackpressure();
      return false;
    }
  }
}
