/**
 * The output side of the AsyncRuntime: the single consumer thread delivers one
 * result at a time, parks the pushes that found a full edge, and retries parked
 * pushes before the reorder buffer of their key may advance.
 */
module AsyncOutputs {
  type Node = nat
  type Edge = nat
  type Packet = int
  type Request = nat

  /** One reorder buffer: a node in one topology version. */
  datatype Key = Key(node: Node, version: nat)

  datatype Push = Push(edge: Edge, packet: Packet)

  /** One output of a result, with the edges its port is routed to. */
  datatype Output = Output(packet: Packet, routes: seq<Edge>)

  datatype Task =
    | Ready
    | Delivering(k: Key, rest: seq<Output>, parked: seq<Push>)
    | Ending
    | Retrying(k: Key, todo: seq<Push>, still: seq<Push>)

  /**
   * taken and owed are histories per key: the pushes that went through, and
   * the pushes of all results delivered so far. lost holds the keys that
   * failed, were cancelled, or lost their session.
   */
  datatype Outs = Outs(
    blocked: map<Key, seq<Push>>, task: Task,
    taken: map<Key, seq<Push>>, owed: map<Key, seq<Push>>, lost: set<Key>)

  datatype Step =
    | Deliver(k: Key, outputs: seq<Output>)   // DeliverReady hands over the head of a buffer
    | Emit(full: set<Edge>)                   // one output of the result; some edges may be full
    | Abandon                                 // the node failed or was cancelled meanwhile
    | ParkRest                                // refused pushes go to blocked_
    | End                                     // FinishEntry
    | StartRetry(k: Key)
    | Retry(refused: bool)
    | CancelRetry
    | FinishRetry
    | Detach(ks: set<Key>)                    // DetachSession discards the parked pushes of a session

  function Get(m: map<Key, seq<Push>>, k: Key): seq<Push> {
    if k in m then m[k] else []
  }

  function Pushes(out: Output): (ps: seq<Push>)
    ensures |ps| == |out.routes|
    ensures forall i :: 0 <= i < |ps| ==> ps[i] == Push(out.routes[i], out.packet)
  {
    seq(|out.routes|, i requires 0 <= i < |out.routes| => Push(out.routes[i], out.packet))
  }

  function Flatten(outs: seq<Output>): seq<Push> {
    if outs == [] then [] else Pushes(outs[0]) + Flatten(outs[1..])
  }

  /** The pushes to edges of a set, in order; and the others. */
  function Among(ps: seq<Push>, edges: set<Edge>, keep: bool): seq<Push> {
    if ps == [] then []
    else Among(ps[..|ps| - 1], edges, keep) +
         if (ps[|ps| - 1].edge in edges) == keep then [ps[|ps| - 1]] else []
  }

  predicate Uses(ps: seq<Push>, edge: Edge) {
    exists i :: 0 <= i < |ps| && ps[i].edge == edge
  }

  /** An earlier output of this result waits for one of the edges. */
  predicate SharesEdge(parked: seq<Push>, out: Output) {
    exists i :: 0 <= i < |out.routes| && Uses(parked, out.routes[i])
  }

  predicate Enabled(s: Outs, a: Step) {
    match a
    case Deliver(k, _) => s.task.Ready? && k !in s.blocked
    case Emit(_) => s.task.Delivering? && s.task.rest != []
    case Abandon => s.task.Delivering?
    case ParkRest => s.task.Delivering? && s.task.rest == []
    case End => s.task.Ending?
    case StartRetry(k) => s.task.Ready? && k in s.blocked
    case Retry(_) => s.task.Retrying? && s.task.todo != []
    case CancelRetry => s.task.Retrying?
    case FinishRetry => s.task.Retrying? && s.task.todo == []
    case Detach(_) => true
  }

  function Do(s: Outs, a: Step): Outs
    requires Enabled(s, a)
  {
    match a
    case Deliver(k, outputs) =>
      s.(task := Delivering(k, outputs, []), owed := s.owed[k := Get(s.owed, k) + Flatten(outputs)])
    case Emit(full) => DoEmit(s, full)
    case Abandon => s.(task := Ending, lost := s.lost + {s.task.k})
    case ParkRest =>
      s.(task := Ending,
         blocked := if s.task.parked == [] then s.blocked else s.blocked[s.task.k := s.task.parked])
    case End => s.(task := Ready)
    case StartRetry(k) => s.(task := Retrying(k, s.blocked[k], []))
    case Retry(full) => DoRetry(s, full)
    case CancelRetry => s.(task := s.task.(todo := [], still := []), lost := s.lost + {s.task.k})
    case FinishRetry =>
      s.(task := Ready,
         blocked := if s.task.k !in s.blocked then s.blocked
                    else if s.task.still == [] then s.blocked - {s.task.k}
                    else s.blocked[s.task.k := s.task.still])
    case Detach(ks) => s.(blocked := s.blocked - ks, lost := s.lost + ks)
  }

  function DoEmit(s: Outs, full: set<Edge>): Outs
    requires s.task.Delivering? && s.task.rest != []
  {
    var t, ps := s.task, Pushes(s.task.rest[0]);
    if SharesEdge(t.parked, t.rest[0]) then
      s.(task := t.(rest := t.rest[1..], parked := t.parked + ps))
    else
      s.(task := t.(rest := t.rest[1..], parked := t.parked + Among(ps, full, true)),
         taken := s.taken[t.k := Get(s.taken, t.k) + Among(ps, full, false)])
  }

  function DoRetry(s: Outs, full: bool): Outs
    requires s.task.Retrying? && s.task.todo != []
  {
    var t := s.task;
    var p, todo := t.todo[0], t.todo[1..];
    if Uses(t.still, p.edge) || full then
      s.(task := t.(todo := todo, still := t.still + [p]))
    else
      s.(task := t.(todo := todo), taken := s.taken[t.k := Get(s.taken, t.k) + [p]])
  }

  predicate Init(s: Outs) {
    s == Outs(map[], Ready, map[], map[], {})
  }

  // -------------------------------------------------------------------------
  // The pushes to one edge

  function For(ps: seq<Push>, edge: Edge): seq<Push> {
    if ps == [] then []
    else For(ps[..|ps| - 1], edge) + if ps[|ps| - 1].edge == edge then [ps[|ps| - 1]] else []
  }

  lemma {:induction false} ForAppend(xs: seq<Push>, ys: seq<Push>, edge: Edge)
    ensures For(xs + ys, edge) == For(xs, edge) + For(ys, edge)
  {
    if ys == [] {
      assert xs + ys == xs;
    } else {
      var k := |ys| - 1;
      assert (xs + ys)[..|xs + ys| - 1] == xs + ys[..k];
      ForAppend(xs, ys[..k], edge);
    }
  }

  lemma {:induction false} ForNone(ps: seq<Push>, edge: Edge)
    requires !Uses(ps, edge)
    ensures For(ps, edge) == []
  {
    if ps != [] {
      assert !Uses(ps[..|ps| - 1], edge);
      ForNone(ps[..|ps| - 1], edge);
      assert ps[|ps| - 1].edge != edge;
    }
  }

  lemma {:induction false} ForOne(p: Push, edge: Edge)
    ensures For([p], edge) == if p.edge == edge then [p] else []
  {
    assert [p][..0] == [];
  }

  lemma {:induction false} Units<T>(a: seq<T>)
    ensures a + [] == a && [] + a == a
  {
  }

  lemma {:induction false} Assoc<T>(a: seq<T>, b: seq<T>, c: seq<T>)
    ensures a + (b + c) == a + b + c
  {
  }

  /** Splitting by a set of edges sends all pushes of one edge the same way. */
  lemma {:induction false} ForAmong(ps: seq<Push>, edges: set<Edge>, keep: bool, edge: Edge)
    ensures For(Among(ps, edges, keep), edge) == if (edge in edges) == keep then For(ps, edge) else []
  {
    if ps != [] {
      var front, p := ps[..|ps| - 1], ps[|ps| - 1];
      var a := Among(front, edges, keep);
      ForAmong(front, edges, keep, edge);
      Units(a);
      Units(For(a, edge));
      Units(For(front, edge));
      ForAppend(a, [p], edge);
      ForOne(p, edge);
    }
  }

  // -------------------------------------------------------------------------
  // What a key still has to push

  function Waiting(s: Outs, k: Key): seq<Push> {
    if s.task.Delivering? && s.task.k == k then s.task.parked + Flatten(s.task.rest)
    else if s.task.Retrying? && s.task.k == k then s.task.still + s.task.todo
    else Get(s.blocked, k)
  }

  /** While a result of k is being delivered nothing earlier of k is parked. */
  ghost predicate TaskOk(s: Outs) {
    && (s.task.Delivering? ==> s.task.k !in s.blocked)
    && (s.task.Retrying? ==> s.task.k in s.blocked || s.task.k in s.lost)
  }

  ghost predicate KeptFor(s: Outs, k: Key, edge: Edge) {
    k !in s.lost ==> For(Get(s.owed, k), edge) == For(Get(s.taken, k), edge) + For(Waiting(s, k), edge)
  }

  lemma {:induction false} TaskOkStep(s: Outs, a: Step)
    requires TaskOk(s) && Enabled(s, a)
    ensures TaskOk(Do(s, a))
  {
  }

  lemma {:induction false} DeliverKeeps(s: Outs, k: Key, outputs: seq<Output>, q: Key, edge: Edge)
    requires KeptFor(s, q, edge) && Enabled(s, Deliver(k, outputs))
    ensures KeptFor(Do(s, Deliver(k, outputs)), q, edge)
  {
    if q == k {
      ForAppend(Get(s.owed, k), Flatten(outputs), edge);
      Units(Flatten(outputs));
      Units(For(Get(s.taken, k), edge));
      assert Waiting(s, k) == [];
    }
  }

  /** One output, pushed or parked as a whole, keeps the order at each edge. */
  lemma {:induction false} EmitOne(taken: seq<Push>, parked: seq<Push>, ps: seq<Push>, full: set<Edge>, edge: Edge)
    requires Uses(ps, edge) ==> !Uses(parked, edge)
    ensures For(taken + Among(ps, full, false), edge) + For(parked + Among(ps, full, true), edge)
         == For(taken, edge) + For(parked, edge) + For(ps, edge)
  {
    var x, y, p := For(taken, edge), For(parked, edge), For(ps, edge);
    ForAppend(taken, Among(ps, full, false), edge);
    ForAppend(parked, Among(ps, full, true), edge);
    ForAmong(ps, full, false, edge);
    ForAmong(ps, full, true, edge);
    if Uses(ps, edge) {
      ForNone(parked, edge);
    } else {
      ForNone(ps, edge);
    }
    OneWay(x, y, p);
  }

  lemma {:induction false} OneWay<T>(x: seq<T>, y: seq<T>, p: seq<T>)
    requires y == [] || p == []
    ensures (x + p) + (y + []) == x + y + p
    ensures (x + []) + (y + p) == x + y + p
  {
    Units(x);
    Units(y);
    Assoc(x, y, p);
    if y == [] {
      Units(x + p);
    } else {
      Units(x + y);
    }
  }

  lemma {:induction false} EmitKeeps(s: Outs, full: set<Edge>, q: Key, edge: Edge)
    requires KeptFor(s, q, edge) && Enabled(s, Emit(full))
    ensures KeptFor(DoEmit(s, full), q, edge)
  {
    var t := s.task;
    if q == t.k {
      var out, rest, ps := t.rest[0], t.rest[1..], Pushes(t.rest[0]);
      var taken := Get(s.taken, q);
      ForAppend(t.parked, Flatten(t.rest), edge);
      ForAppend(ps, Flatten(rest), edge);
      if SharesEdge(t.parked, out) {
        ForAppend(t.parked, ps, edge);
        ForAppend(t.parked + ps, Flatten(rest), edge);
        Assoc(For(t.parked, edge), For(ps, edge), For(Flatten(rest), edge));
      } else {
        var parked' := t.parked + Among(ps, full, true);
        NoShare(t.parked, out, edge);
        EmitOne(taken, t.parked, ps, full, edge);
        ForAppend(parked', Flatten(rest), edge);
        Assoc(For(t.parked, edge), For(ps, edge), For(Flatten(rest), edge));
        Assoc(For(taken, edge), For(t.parked, edge), For(ps, edge));
        Assoc(For(taken, edge), For(t.parked, edge) + For(ps, edge), For(Flatten(rest), edge));
        Assoc(For(taken + Among(ps, full, false), edge), For(parked', edge), For(Flatten(rest), edge));
      }
    }
  }

  lemma {:induction false} NoShare(parked: seq<Push>, out: Output, edge: Edge)
    requires !SharesEdge(parked, out)
    ensures Uses(Pushes(out), edge) ==> !Uses(parked, edge)
  {
    if i :| 0 <= i < |out.routes| && Pushes(out)[i].edge == edge {
      assert !Uses(parked, out.routes[i]);
    }
  }

  /** A retried push that goes through had nothing of its edge kept back before it. */
  lemma {:induction false} RetryOne(taken: seq<Push>, still: seq<Push>, p: Push, todo: seq<Push>, edge: Edge)
    requires !Uses(still, p.edge)
    ensures For(taken + [p], edge) + For(still + todo, edge) == For(taken, edge) + For(still + ([p] + todo), edge)
  {
    var x, y, h, z := For(taken, edge), For(still, edge), For([p], edge), For(todo, edge);
    ForAppend(still, [p] + todo, edge);
    ForAppend([p], todo, edge);
    ForAppend(still, todo, edge);
    ForAppend(taken, [p], edge);
    ForOne(p, edge);
    if p.edge == edge {
      ForNone(still, edge);
      Units(z);
      Units(h + z);
      Assoc(x, h, z);
    } else {
      Units(z);
      Units(x);
    }
  }

  /** A push kept back leaves what waits as it was; one that goes through is taken out. */
  lemma {:induction false} RetryWaits(s: Outs, full: bool)
    requires Enabled(s, Retry(full))
    ensures Waiting(s, s.task.k) == s.task.still + ([s.task.todo[0]] + s.task.todo[1..])
    ensures Uses(s.task.still, s.task.todo[0].edge) || full ==>
            Waiting(DoRetry(s, full), s.task.k) == Waiting(s, s.task.k) && DoRetry(s, full).taken == s.taken
    ensures !(Uses(s.task.still, s.task.todo[0].edge) || full) ==>
            && Waiting(DoRetry(s, full), s.task.k) == s.task.still + s.task.todo[1..]
            && Get(DoRetry(s, full).taken, s.task.k) == Get(s.taken, s.task.k) + [s.task.todo[0]]
  {
    var t := s.task;
    assert t.todo == [t.todo[0]] + t.todo[1..];
    Assoc(t.still, [t.todo[0]], t.todo[1..]);
  }

  lemma {:induction false} RetryKeeps(s: Outs, full: bool, q: Key, edge: Edge)
    requires KeptFor(s, q, edge) && Enabled(s, Retry(full))
    ensures KeptFor(DoRetry(s, full), q, edge)
  {
    var t, s' := s.task, DoRetry(s, full);
    if q != t.k {
      assert Waiting(s', q) == Waiting(s, q) && Get(s'.taken, q) == Get(s.taken, q);
    } else {
      RetryWaits(s, full);
      if !(Uses(t.still, t.todo[0].edge) || full) {
        RetryOne(Get(s.taken, q), t.still, t.todo[0], t.todo[1..], edge);
      }
    }
  }

  lemma {:induction false} StepKeeps(s: Outs, a: Step, q: Key, edge: Edge)
    requires TaskOk(s) && KeptFor(s, q, edge) && Enabled(s, a)
    ensures KeptFor(Do(s, a), q, edge)
  {
    match a
    case Deliver(k, outputs) => DeliverKeeps(s, k, outputs, q, edge);
    case Emit(full) => EmitKeeps(s, full, q, edge);
    case Retry(full) => RetryKeeps(s, full, q, edge);
    case _ => QuietKeeps(s, a, q, edge);
  }

  /** A step that hands over nothing and pushes nothing. */
  predicate Quiet(a: Step) {
    !a.Deliver? && !a.Emit? && !a.Retry?
  }

  /** It leaves what waits of a key that stays as it was. */
  lemma {:induction false} QuietWaits(s: Outs, a: Step, q: Key)
    requires TaskOk(s) && Enabled(s, a) && Quiet(a) && q !in Do(s, a).lost
    ensures q !in s.lost && Waiting(Do(s, a), q) == Waiting(s, q)
  {
    match a
    case ParkRest => Units(s.task.parked);
    case StartRetry(k) => Units(s.blocked[k]);
    case FinishRetry => Units(s.task.still);
    case _ =>
  }

  lemma {:induction false} QuietKeeps(s: Outs, a: Step, q: Key, edge: Edge)
    requires TaskOk(s) && KeptFor(s, q, edge) && Enabled(s, a) && Quiet(a)
    ensures KeptFor(Do(s, a), q, edge)
  {
    if q !in Do(s, a).lost {
      QuietWaits(s, a, q);
      assert Do(s, a).owed == s.owed && Do(s, a).taken == s.taken;
    }
  }

  // -------------------------------------------------------------------------
  // Runs

  ghost predicate Safe(s: Outs) {
    TaskOk(s) && forall k, edge :: KeptFor(s, k, edge)
  }

  lemma {:induction false} StepSafe(s: Outs, a: Step)
    requires Safe(s) && Enabled(s, a)
    ensures Safe(Do(s, a))
  {
    TaskOkStep(s, a);
    forall k, edge ensures KeptFor(Do(s, a), k, edge) {
      StepKeeps(s, a, k, edge);
    }
  }

  ghost predicate IsRun(states: seq<Outs>, steps: seq<Step>) {
    && |states| == |steps| + 1
    && Init(states[0])
    && forall i {:trigger steps[i]} :: 0 <= i < |steps| ==>
         Enabled(states[i], steps[i]) && states[i + 1] == Do(states[i], steps[i])
  }

  lemma {:induction false} RunSafe(states: seq<Outs>, steps: seq<Step>, i: nat)
    requires IsRun(states, steps) && i < |states|
    ensures Safe(states[i])
  {
    if i > 0 {
      RunSafe(states, steps, i - 1);
      StepSafe(states[i - 1], steps[i - 1]);
    }
  }

  /** The pushes of the results that a run has handed over for k, in order. */
  ghost function Handed(steps: seq<Step>, k: Key): seq<Push> {
    if steps == [] then []
    else
      var front, last := steps[..|steps| - 1], steps[|steps| - 1];
      Handed(front, k) + if last.Deliver? && last.k == k then Flatten(last.outputs) else []
  }

  lemma {:induction false} OwedStep(s: Outs, a: Step, k: Key)
    requires Enabled(s, a)
    ensures Get(Do(s, a).owed, k) == if a.Deliver? && a.k == k then Get(s.owed, k) + Flatten(a.outputs) else Get(s.owed, k)
  {
  }

  lemma {:induction false} OwedIsHanded(states: seq<Outs>, steps: seq<Step>, i: nat, k: Key)
    requires IsRun(states, steps) && i < |states|
    ensures Get(states[i].owed, k) == Handed(steps[..i], k)
  {
    if i > 0 {
      OwedIsHanded(states, steps, i - 1, k);
      assert steps[..i][..i - 1] == steps[..i - 1];
      Units(Handed(steps[..i - 1], k));
      OwedStep(states[i - 1], steps[i - 1], k);
    }
  }

  /** Step a takes key k out of the order: its node failed or was cancelled, or its session left. */
  predicate Loses(s: Outs, a: Step, k: Key) {
    || (a.Abandon? && s.task.Delivering? && s.task.k == k)
    || (a.CancelRetry? && s.task.Retrying? && s.task.k == k)
    || (a.Detach? && k in a.ks)
  }

  ghost predicate LostBefore(states: seq<Outs>, steps: seq<Step>, i: nat, k: Key)
    requires i <= |steps| <= |states|
  {
    exists j :: 0 <= j < i && Loses(states[j], steps[j], k)
  }

  lemma {:induction false} LostStep(s: Outs, a: Step, k: Key)
    requires Enabled(s, a)
    ensures k in Do(s, a).lost <==> k in s.lost || Loses(s, a, k)
  {
  }

  lemma {:induction false} LostMore(states: seq<Outs>, steps: seq<Step>, i: nat, k: Key)
    requires i < |steps| <= |states|
    ensures LostBefore(states, steps, i + 1, k) <==>
            LostBefore(states, steps, i, k) || Loses(states[i], steps[i], k)
  {
  }

  /** A key is lost exactly when some step took it out. */
  lemma {:induction false} LostIff(states: seq<Outs>, steps: seq<Step>, i: nat, k: Key)
    requires IsRun(states, steps) && i < |states|
    ensures k in states[i].lost <==> LostBefore(states, steps, i, k)
  {
    if i > 0 {
      LostIff(states, steps, i - 1, k);
      LostMore(states, steps, i - 1, k);
      LostStep(states[i - 1], steps[i - 1], k);
    }
  }

  /**
   * For every key that was not lost, an edge has received, in order and once
   * each, the pushes of the results delivered so far, up to those still waiting.
   */
  lemma {:induction false} EdgeOrderIsDeliveryOrder(states: seq<Outs>, steps: seq<Step>, i: nat, k: Key, edge: Edge)
    requires IsRun(states, steps) && i < |states| && k !in states[i].lost
    ensures For(Handed(steps[..i], k), edge)
         == For(Get(states[i].taken, k), edge) + For(Waiting(states[i], k), edge)
  {
    RunSafe(states, steps, i);
    OwedIsHanded(states, steps, i, k);
    assert KeptFor(states[i], k, edge);
  }

  /** No push of a result happens while an earlier output of its key is parked. */
  lemma {:induction false} NoDeliveryBehindParked(states: seq<Outs>, steps: seq<Step>, i: nat)
    requires IsRun(states, steps) && i < |steps|
    ensures steps[i].Emit? ==> states[i].task.k !in states[i].blocked
  {
    RunSafe(states, steps, i);
  }

  // -------------------------------------------------------------------------
  // A push waits only for a full edge

  /**
   * An edge gets its pushes of one output at once, unless it is full or the
   * output goes to some edge that an earlier output of the result waits for.
   */
  lemma {:induction false} EmittedUnlessFull(s: Outs, full: set<Edge>, edge: Edge)
    requires Enabled(s, Emit(full))
    ensures var out, s' := s.task.rest[0], Do(s, Emit(full));
            && s'.task.Delivering? && s'.task.rest == s.task.rest[1..]
            && (edge in full || (exists p :: p in s.task.parked && p.edge in out.routes) ==>
                  && For(Get(s'.taken, s.task.k), edge) == For(Get(s.taken, s.task.k), edge)
                  && For(s'.task.parked, edge) == For(s.task.parked, edge) + For(Pushes(out), edge))
            && (edge !in full && (forall p :: p in s.task.parked ==> p.edge !in out.routes) ==>
                  && For(Get(s'.taken, s.task.k), edge) == For(Get(s.taken, s.task.k), edge) + For(Pushes(out), edge)
                  && For(s'.task.parked, edge) == For(s.task.parked, edge))
  {
    var out, ps := s.task.rest[0], Pushes(s.task.rest[0]);
    SharesEdgeIff(s.task.parked, out);
    ForAppend(s.task.parked, ps, edge);
    ForAppend(s.task.parked, Among(ps, full, true), edge);
    ForAppend(Get(s.taken, s.task.k), Among(ps, full, false), edge);
    ForAmong(ps, full, true, edge);
    ForAmong(ps, full, false, edge);
    Units(For(s.task.parked, edge));
    Units(For(Get(s.taken, s.task.k), edge));
  }

  lemma {:induction false} SharesEdgeIff(parked: seq<Push>, out: Output)
    ensures SharesEdge(parked, out) <==> exists p :: p in parked && p.edge in out.routes
  {
    if SharesEdge(parked, out) {
      var i :| 0 <= i < |out.routes| && Uses(parked, out.routes[i]);
      var j :| 0 <= j < |parked| && parked[j].edge == out.routes[i];
      assert parked[j] in parked && parked[j].edge in out.routes;
    }
    if p :| p in parked && p.edge in out.routes {
      var i :| 0 <= i < |out.routes| && out.routes[i] == p.edge;
      assert Uses(parked, out.routes[i]);
    }
  }

  /** Steps i to j retry the parked pushes of k one by one; exactly the edges in full refuse. */
  ghost predicate IsPass(states: seq<Outs>, steps: seq<Step>, i: nat, j: nat, k: Key, full: set<Edge>) {
    && IsRun(states, steps) && i < j <= |steps| && steps[i] == StartRetry(k)
    && forall m {:trigger steps[m]} :: i < m < j ==>
         && steps[m].Retry? && states[m].task.Retrying? && states[m].task.todo != []
         && (steps[m].refused <==> states[m].task.todo[0].edge in full)
  }

  /** After n retries of a pass over the pushes ps. */
  ghost predicate PassAt(s: Outs, k: Key, ps: seq<Push>, n: nat, full: set<Edge>, taken: seq<Push>)
    requires n <= |ps|
  {
    && s.task == Retrying(k, ps[n..], Among(ps[..n], full, true))
    && Get(s.taken, k) == taken + Among(ps[..n], full, false)
    && Get(s.blocked, k) == ps && k in s.blocked
  }

  lemma {:induction false} AmongUses(ps: seq<Push>, full: set<Edge>, edge: Edge)
    ensures Uses(Among(ps, full, true), edge) ==> edge in full
  {
    if ps != [] {
      AmongUses(ps[..|ps| - 1], full, edge);
      var rest := Among(ps[..|ps| - 1], full, true);
      if i :| 0 <= i < |Among(ps, full, true)| && Among(ps, full, true)[i].edge == edge {
        if i < |rest| {
          assert rest[i].edge == edge;
        }
      }
    }
  }

  lemma {:induction false} PassNext(s: Outs, k: Key, ps: seq<Push>, n: nat, full: set<Edge>, taken: seq<Push>)
    requires n < |ps| && PassAt(s, k, ps, n, full, taken)
    ensures PassAt(Do(s, Retry(ps[n].edge in full)), k, ps, n + 1, full, taken)
  {
    assert ps[..n + 1][..n] == ps[..n];
    assert ps[n..][1..] == ps[n + 1..];
    AmongUses(ps[..n], full, ps[n].edge);
    Units(Among(ps[..n], full, true));
    Units(Among(ps[..n], full, false));
    Units(taken + Among(ps[..n], full, false));
    Assoc(taken, Among(ps[..n], full, false), [ps[n]]);
  }

  lemma {:induction false} PassRuns(states: seq<Outs>, steps: seq<Step>, i: nat, j: nat, k: Key, full: set<Edge>)
    requires IsPass(states, steps, i, j, k, full)
    ensures Enabled(states[i], steps[i]) && j - i - 1 <= |states[i].blocked[k]|
    ensures PassAt(states[j], k, states[i].blocked[k], j - i - 1, full, Get(states[i].taken, k))
  {
    var ps := states[i].blocked[k];
    if j == i + 1 {
      assert ps[0..] == ps && ps[..0] == [];
      Units(Get(states[i].taken, k));
    } else {
      PassRuns(states, steps, i, j - 1, k, full);
      assert steps[j - 1].Retry?;
      PassNext(states[j - 1], k, ps, j - i - 2, full, Get(states[i].taken, k));
    }
  }

  /**
   * A pass over the parked pushes of k lets go through, in order, exactly those
   * whose edge has room; k is unblocked when no edge refused one of them.
   */
  lemma {:induction false} PassTakesWhatFits(states: seq<Outs>, steps: seq<Step>, i: nat, j: nat, k: Key,
                                             full: set<Edge>, edge: Edge)
    requires IsPass(states, steps, i, j, k, full) && j < |steps| && steps[j].FinishRetry?
    ensures Enabled(states[i], steps[i])
    ensures var was, s' := For(states[i].blocked[k], edge), states[j + 1];
            && For(Get(s'.blocked, k), edge) == (if edge in full then was else [])
            && For(Get(s'.taken, k), edge) == For(Get(states[i].taken, k), edge) + if edge in full then [] else was
    ensures k in states[j + 1].blocked <==> exists p :: p in states[i].blocked[k] && p.edge in full
    ensures states[j + 1].task.Ready?
  {
    PassRuns(states, steps, i, j, k, full);
    assert Enabled(states[j], steps[j]);
    var ps, taken := states[i].blocked[k], Get(states[i].taken, k);
    assert ps[..|ps|] == ps;
    ForAmong(ps, full, true, edge);
    ForAmong(ps, full, false, edge);
    ForAppend(taken, Among(ps, full, false), edge);
    AmongSome(ps, full);
  }

  lemma {:induction false} AmongSome(ps: seq<Push>, full: set<Edge>)
    ensures Among(ps, full, true) == [] <==> forall p :: p in ps ==> p.edge !in full
  {
    if ps != [] {
      var front, last := ps[..|ps| - 1], ps[|ps| - 1];
      assert ps == front + [last];
      AmongSome(front, full);
    }
  }
}
