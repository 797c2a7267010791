/**
 * One input port of an InputBinding: the edge that feeds it now, the older
 * edges that must drain first, and the pops made so far. Every function here is
 * one step on the port; the acquire loops are made of these steps.
 */
module InputPorts {
  import opened Wrappers
  import opened EdgeChannels

  type EdgeId = nat

  /** An edge as its consumer sees it; kept is the history of what it accepted and did not evict. */
  datatype Chan = Chan(queue: seq<Packet>, state: EdgeState, kept: seq<Packet>)

  datatype Pop = Pop(edge: EdgeId, packet: Packet)

  /**
   * gen numbers the edges bound to the port in order; popped is the history of
   * pops; released holds the edges the port let go of for good.
   */
  datatype Port = Port(
    name: string, required: bool, edge: Option<EdgeId>, predecessors: seq<EdgeId>, chans: map<EdgeId, Chan>,
    ended: bool,
    gen: map<EdgeId, nat>, nextGen: nat, popped: seq<Pop>, released: set<EdgeId>)

  // -------------------------------------------------------------------------
  // Which edge is read

  /** The edges in the order they have to be drained. */
  function Line(p: Port): seq<EdgeId> {
    p.predecessors + if p.edge.Some? then [p.edge.value] else []
  }

  /** Retired and empty: nothing more will come from it. */
  predicate Finished(c: Chan) {
    c.state.Retired? && c.queue == []
  }

  function FirstUnfinished(chans: map<EdgeId, Chan>, es: seq<EdgeId>): (k: nat)
    requires forall e :: e in es ==> e in chans
    ensures k <= |es|
    ensures forall i :: 0 <= i < k ==> Finished(chans[es[i]])
    ensures k < |es| ==> !Finished(chans[es[k]])
  {
    if es == [] || !Finished(chans[es[0]]) then 0
    else
      var rest := es[1..];
      1 + FirstUnfinished(chans, rest)
  }

  predicate Bound(p: Port) {
    forall e :: e in Line(p) ==> e in p.chans && e in p.gen
  }

  /** The first predecessor that may still deliver, else the current edge. */
  function Active(p: Port): Option<EdgeId>
    requires Bound(p)
  {
    assert forall e :: e in p.predecessors ==> e in Line(p);
    var k := FirstUnfinished(p.chans, p.predecessors);
    if k < |p.predecessors| then Some(p.predecessors[k]) else p.edge
  }

  function Head(p: Port): Option<Packet>
    requires Bound(p)
  {
    ActiveInLine(p);
    var a := Active(p);
    if a.None? || p.chans[a.value].queue == [] then None else Some(p.chans[a.value].queue[0])
  }

  lemma {:induction false} ActiveInLine(p: Port)
    requires Bound(p)
    ensures Active(p).Some? ==> Active(p).value in Line(p)
  {
  }

  predicate IsPredecessor(p: Port, e: EdgeId) {
    p.edge != Some(e)
  }

  // -------------------------------------------------------------------------
  // Steps

  /** Take: pops the head of the active edge. */
  function TakeHead(p: Port): Port
    requires Bound(p) && Head(p).Some?
  {
    ActiveInLine(p);
    var e := Active(p).value;
    var c := p.chans[e];
    p.(chans := p.chans[e := c.(queue := c.queue[1..])], popped := p.popped + [Pop(e, c.queue[0])])
  }

  function Erase(es: seq<EdgeId>, e: EdgeId): (r: seq<EdgeId>)
    ensures forall x :: x in r <==> x in es && x != e
  {
    if es == [] then [] else Erase(es[..|es| - 1], e) + if es[|es| - 1] == e then [] else [es[|es| - 1]]
  }

  /** The marker of a predecessor: pop it, retire the edge and forget it. */
  function FinishPredecessor(p: Port): Port
    requires Bound(p) && Head(p) == Some(Eos)
  {
    ActiveInLine(p);
    var e := Active(p).value;
    var q := TakeHead(p);
    q.(chans := q.chans[e := q.chans[e].(state := Retired)],
       predecessors := Erase(p.predecessors, e), released := p.released + {e})
  }

  /** The marker of the current edge ends the port. */
  function EndPort(p: Port): Port
    requires Bound(p) && Head(p) == Some(Eos)
  {
    TakeHead(p).(ended := true)
  }

  /** What the other threads do to an edge of the port. */
  datatype Outside = Push(packet: Packet) | Evict(k: nat) | InjectEos | MarkDraining | Retire(fast: bool)

  predicate Accepts(c: Chan, a: Outside) {
    match a
    case Push(_) => !Closed(c.state)
    case Evict(k) => !Closed(c.state) && k < |c.queue| <= |c.kept|
    case InjectEos => !c.state.Retired?
    case _ => true
  }

  function Change(c: Chan, a: Outside): Chan
    requires Accepts(c, a)
  {
    match a
    case Push(p) => c.(queue := c.queue + [p], kept := c.kept + [p])
    case Evict(k) => c.(queue := Without(c.queue, k), kept := Without(c.kept, |c.kept| - |c.queue| + k))
    case InjectEos => c.(queue := c.queue + [Eos], kept := c.kept + [Eos])
    case MarkDraining => if Closed(c.state) then c else c.(state := EdgeDraining)
    case Retire(fast) => c.(state := Retired, queue := if fast then [] else c.queue)
  }

  function OnEdge(p: Port, e: EdgeId, a: Outside): Port
    requires e in p.chans && Accepts(p.chans[e], a)
  {
    p.(chans := p.chans[e := Change(p.chans[e], a)])
  }

  /** The current edge makes way: let go if it ended and is empty, else first in line. */
  function SetAside(p: Port): Port
    requires Bound(p)
  {
    if p.edge.None? then p
    else
      assert p.edge.value in Line(p);
      var e := p.edge.value;
      if p.ended && p.chans[e].queue == [] then OnEdge(p, e, Retire(false)).(edge := None, released := p.released + {e})
      else p.(edge := None, predecessors := p.predecessors + [e])
  }

  /** Rebind of a port that stays: a new edge makes the old one a predecessor. */
  function Rebind(p: Port, edge: Option<EdgeId>, required: bool): Port
    requires Bound(p)
  {
    if edge == p.edge then p.(required := required)
    else WithEdge(SetAside(p).(required := required, ended := false), edge)
  }

  /** Binds a fresh, empty edge, the newest of the port. */
  function WithEdge(p: Port, edge: Option<EdgeId>): Port {
    if edge.None? then p.(edge := None)
    else p.(edge := edge, chans := p.chans[edge.value := Chan([], EdgeActive, [])],
            gen := p.gen[edge.value := p.nextGen], nextGen := p.nextGen + 1)
  }

  /** ForgetPredecessor, on an edge that is retired and empty. */
  function Forget(p: Port, e: EdgeId): Port {
    p.(predecessors := Erase(p.predecessors, e), released := p.released + {e})
  }

  // -------------------------------------------------------------------------
  // The handover invariant

  ghost predicate Sorted(gen: map<EdgeId, nat>, line: seq<EdgeId>) {
    && (forall i :: 0 <= i < |line| ==> line[i] in gen)
    && (forall i, j :: 0 <= i < j < |line| ==> gen[line[i]] < gen[line[j]])
  }

  ghost predicate Numbered(gen: map<EdgeId, nat>, next: nat) {
    forall e :: e in gen ==> gen[e] < next
  }

  ghost predicate Covered(gen: map<EdgeId, nat>, line: seq<EdgeId>, released: set<EdgeId>) {
    forall e :: e in gen ==> e in line || e in released
  }

  /** Older edges come first, and every edge ever bound is in line or let go. */
  ghost predicate Lined(p: Port) {
    && p.chans.Keys == p.gen.Keys && Bound(p)
    && Sorted(p.gen, Line(p)) && Numbered(p.gen, p.nextGen) && Covered(p.gen, Line(p), p.released)
  }

  ghost predicate Rising(gen: map<EdgeId, nat>, popped: seq<Pop>) {
    && (forall k :: 0 <= k < |popped| ==> popped[k].edge in gen)
    && (forall k, l :: 0 <= k < l < |popped| ==> gen[popped[k].edge] <= gen[popped[l].edge])
  }

  /** No edge that can still deliver is older than one already popped from. */
  ghost predicate Past(p: Port, e: EdgeId)
    requires e in p.gen && Rising(p.gen, p.popped)
  {
    forall k :: 0 <= k < |p.popped| ==> p.gen[p.popped[k].edge] <= p.gen[e]
  }

  /** Pops go through the generations in order, and the next one does not go back. */
  ghost predicate Ordered(p: Port) {
    && Rising(p.gen, p.popped)
    && forall e :: e in Line(p) && e in p.chans && e in p.gen && !Finished(p.chans[e]) ==> Past(p, e)
  }

  function From(ps: seq<Pop>, e: EdgeId): seq<Packet> {
    if ps == [] then []
    else From(ps[..|ps| - 1], e) + if ps[|ps| - 1].edge == e then [ps[|ps| - 1].packet] else []
  }

  /** What was popped from an edge, then what is queued, is a prefix of what it kept. */
  ghost predicate Fifo(p: Port) {
    forall e :: e in p.chans ==> FifoAt(p.popped, p.chans[e], e)
  }

  ghost predicate FifoAt(popped: seq<Pop>, c: Chan, e: EdgeId) {
    From(popped, e) + c.queue <= c.kept && (c.state.Retired? || From(popped, e) + c.queue == c.kept)
  }

  /** The last packet popped from the edge was its marker. */
  ghost predicate MarkerPopped(popped: seq<Pop>, e: EdgeId) {
    var out := From(popped, e);
    out != [] && out[|out| - 1] == Eos
  }

  /** The edge is retired, and it is empty or was drained to its marker. */
  ghost predicate Done(p: Port, e: EdgeId) {
    e in p.chans && p.chans[e].state.Retired? && (p.chans[e].queue == [] || MarkerPopped(p.popped, e))
  }

  ghost predicate LetGo(p: Port, e: EdgeId) {
    e !in Line(p) && Done(p, e)
  }

  /** The port lets go of an edge only when it is done, and for good. */
  ghost predicate ReleasedDone(p: Port) {
    forall e :: e in p.released ==> LetGo(p, e)
  }

  ghost predicate Valid(p: Port) {
    Lined(p) && Ordered(p) && Fifo(p) && ReleasedDone(p)
  }

  // -------------------------------------------------------------------------
  // Reading the active edge

  lemma {:induction false} ActiveIsFirst(p: Port) returns (k: nat)
    requires Lined(p) && Active(p).Some?
    ensures k < |Line(p)| && Line(p)[k] == Active(p).value
    ensures forall i :: 0 <= i < k ==> Finished(p.chans[Line(p)[i]])
  {
    assert forall e :: e in p.predecessors ==> e in Line(p);
    k := FirstUnfinished(p.chans, p.predecessors);
    assert forall i :: 0 <= i < |p.predecessors| ==> Line(p)[i] == p.predecessors[i];
  }

  /**
   * A packet is taken from an edge only when every older edge of the port is
   * retired, and has drained to its marker or is empty.
   */
  lemma {:induction false} OlderEdgesAreDone(p: Port, f: EdgeId)
    requires Valid(p) && Active(p).Some? && f in p.gen && p.gen[f] < p.gen[Active(p).value]
    ensures Done(p, f)
  {
    if f in Line(p) {
      var k := ActiveIsFirst(p);
      var i :| 0 <= i < |Line(p)| && Line(p)[i] == f;
      assert i < k;
    } else {
      assert f in p.released;
    }
  }

  lemma {:induction false} TakeLined(p: Port)
    requires Lined(p) && Head(p).Some?
    ensures Lined(TakeHead(p)) && Line(TakeHead(p)) == Line(p)
  {
    ActiveInLine(p);
    assert TakeHead(p).chans.Keys == p.chans.Keys;
  }

  lemma {:induction false} RisingMore(gen: map<EdgeId, nat>, popped: seq<Pop>, x: Pop)
    requires Rising(gen, popped) && x.edge in gen
    requires forall k :: 0 <= k < |popped| ==> gen[popped[k].edge] <= gen[x.edge]
    ensures Rising(gen, popped + [x])
  {
  }

  /** The active edge is the oldest that can still deliver. */
  lemma {:induction false} ActiveIsOldest(p: Port, f: EdgeId)
    requires Lined(p) && Active(p).Some? && f in Line(p) && !Finished(p.chans[f])
    ensures p.gen[Active(p).value] <= p.gen[f]
  {
    var k := ActiveIsFirst(p);
    var i :| 0 <= i < |Line(p)| && Line(p)[i] == f;
    assert i >= k;
  }

  lemma {:induction false} TakeOrdered(p: Port)
    requires Lined(p) && Ordered(p) && Head(p).Some?
    ensures Ordered(TakeHead(p))
  {
    ActiveInLine(p);
    var q, e := TakeHead(p), Active(p).value;
    assert Past(p, e);
    RisingMore(p.gen, p.popped, Pop(e, p.chans[e].queue[0]));
    forall f | f in Line(q) && f in q.chans && f in q.gen && !Finished(q.chans[f]) ensures Past(q, f) {
      ActiveIsOldest(p, f);
      assert Past(p, f);
    }
  }

  lemma {:induction false} FromMore(ps: seq<Pop>, x: Pop, e: EdgeId)
    ensures From(ps + [x], e) == From(ps, e) + if x.edge == e then [x.packet] else []
  {
    assert (ps + [x])[..|ps|] == ps;
  }

  lemma {:induction false} FifoPop(popped: seq<Pop>, c: Chan, e: EdgeId)
    requires FifoAt(popped, c, e) && c.queue != []
    ensures FifoAt(popped + [Pop(e, c.queue[0])], c.(queue := c.queue[1..]), e)
  {
    FromMore(popped, Pop(e, c.queue[0]), e);
    assert From(popped, e) + [c.queue[0]] + c.queue[1..] == From(popped, e) + c.queue;
  }

  lemma {:induction false} TakeFifo(p: Port)
    requires Lined(p) && Fifo(p) && Head(p).Some?
    ensures Fifo(TakeHead(p))
  {
    ActiveInLine(p);
    var q, e := TakeHead(p), Active(p).value;
    FifoPop(p.popped, p.chans[e], e);
    forall f | f in q.chans && f != e ensures FifoAt(q.popped, q.chans[f], f) {
      FromMore(p.popped, Pop(e, p.chans[e].queue[0]), f);
      assert FifoAt(p.popped, p.chans[f], f);
      assert From(q.popped, f) == From(p.popped, f);
    }
  }

  lemma {:induction false} TakeReleased(p: Port)
    requires Lined(p) && ReleasedDone(p) && Head(p).Some?
    ensures ReleasedDone(TakeHead(p))
  {
    ActiveInLine(p);
    TakeLined(p);
    var q, x := TakeHead(p), Pop(Active(p).value, Head(p).value);
    forall e | e in q.released ensures LetGo(q, e) {
      assert LetGo(p, e);
      FromMore(p.popped, x, e);
      assert From(q.popped, e) == From(p.popped, e) + [];
    }
  }

  lemma {:induction false} TakeValid(p: Port)
    requires Valid(p) && Head(p).Some?
    ensures Valid(TakeHead(p))
  {
    TakeLined(p);
    TakeOrdered(p);
    TakeFifo(p);
    TakeReleased(p);
  }

  // -------------------------------------------------------------------------
  // Letting go of edges

  lemma {:induction false} EraseSorted(gen: map<EdgeId, nat>, es: seq<EdgeId>, e: EdgeId)
    requires Sorted(gen, es)
    ensures Sorted(gen, Erase(es, e))
  {
    if es != [] {
      var front := es[..|es| - 1];
      EraseSorted(gen, front, e);
      forall j | 0 <= j < |Erase(front, e)| ensures gen[Erase(front, e)[j]] < gen[es[|es| - 1]] {
        assert Erase(front, e)[j] in front;
        var k :| 0 <= k < |front| && front[k] == Erase(front, e)[j];
        assert front[k] == es[k];
      }
    }
  }

  lemma {:induction false} EraseEnd(es: seq<EdgeId>, x: EdgeId, e: EdgeId)
    requires x != e
    ensures Erase(es + [x], e) == Erase(es, e) + [x]
  {
    assert (es + [x])[..|es|] == es;
  }

  lemma {:induction false} ForgetLine(p: Port, e: EdgeId)
    requires p.edge != Some(e)
    ensures Line(Forget(p, e)) == Erase(Line(p), e)
  {
    if p.edge.Some? {
      EraseEnd(p.predecessors, p.edge.value, e);
    } else {
      assert Line(p) == p.predecessors;
    }
  }

  /** A predecessor leaves the line; the others stay as they are. */
  lemma {:induction false} ForgetLined(p: Port, e: EdgeId)
    requires Lined(p) && p.edge != Some(e)
    ensures Lined(Forget(p, e)) && forall x :: x in Line(Forget(p, e)) ==> x in Line(p)
  {
    ForgetLine(p, e);
    EraseSorted(p.gen, Line(p), e);
  }

  lemma {:induction false} ForgetReleased(p: Port, e: EdgeId)
    requires ReleasedDone(p) && p.edge != Some(e) && Done(p, e)
    ensures ReleasedDone(Forget(p, e))
  {
    var q := Forget(p, e);
    ForgetLine(p, e);
    forall x | x in q.released ensures LetGo(q, x) {
      assert x == e || LetGo(p, x);
    }
  }

  lemma {:induction false} ForgetValid(p: Port, e: EdgeId)
    requires Valid(p) && p.edge != Some(e) && Done(p, e)
    ensures Valid(Forget(p, e))
  {
    ForgetLined(p, e);
    ForgetReleased(p, e);
  }

  /** Retiring an edge, or clearing it, undoes nothing. */
  lemma {:induction false} ChangeLined(p: Port, e: EdgeId, c: Chan)
    requires Lined(p) && e in p.chans
    ensures Lined(p.(chans := p.chans[e := c]))
  {
    assert p.chans[e := c].Keys == p.chans.Keys;
  }

  lemma {:induction false} ChangeOrdered(p: Port, e: EdgeId, c: Chan)
    requires Lined(p) && Ordered(p) && e in p.chans && (Finished(p.chans[e]) ==> Finished(c))
    ensures Ordered(p.(chans := p.chans[e := c]))
  {
  }

  lemma {:induction false} ChangeFifo(p: Port, e: EdgeId, c: Chan)
    requires Fifo(p) && e in p.chans && FifoAt(p.popped, c, e)
    ensures Fifo(p.(chans := p.chans[e := c]))
  {
  }

  lemma {:induction false} OutsideFifo(popped: seq<Pop>, c: Chan, e: EdgeId, a: Outside)
    requires FifoAt(popped, c, e) && Accepts(c, a)
    ensures FifoAt(popped, Change(c, a), e)
  {
    var out := From(popped, e);
    match a
    case Push(p) => assert out + (c.queue + [p]) == (out + c.queue) + [p];
    case InjectEos => assert out + (c.queue + [Eos]) == (out + c.queue) + [Eos];
    case Evict(k) => assert Without(out + c.queue, |out| + k) == out + Without(c.queue, k);
    case _ =>
  }

  lemma {:induction false} OutsideReleased(p: Port, e: EdgeId, a: Outside)
    requires ReleasedDone(p) && e in p.chans && Accepts(p.chans[e], a)
    ensures ReleasedDone(OnEdge(p, e, a))
  {
    var q := OnEdge(p, e, a);
    assert Line(q) == Line(p);
    forall x | x in q.released ensures LetGo(q, x) {
      assert LetGo(p, x);
    }
  }

  lemma {:induction false} OutsideValid(p: Port, e: EdgeId, a: Outside)
    requires Valid(p) && e in p.chans && Accepts(p.chans[e], a)
    ensures Valid(OnEdge(p, e, a))
  {
    OutsideReleased(p, e, a);
    var c := Change(p.chans[e], a);
    assert FifoAt(p.popped, p.chans[e], e);
    OutsideFifo(p.popped, p.chans[e], e, a);
    ChangeLined(p, e, c);
    ChangeOrdered(p, e, c);
    ChangeFifo(p, e, c);
  }

  lemma {:induction false} FinishPredecessorValid(p: Port)
    requires Valid(p) && Head(p) == Some(Eos) && IsPredecessor(p, Active(p).value)
    ensures Valid(FinishPredecessor(p))
  {
    ActiveInLine(p);
    var e, q := Active(p).value, TakeHead(p);
    TakeValid(p);
    OutsideValid(q, e, Retire(false));
    FromMore(p.popped, Pop(e, Eos), e);
    assert MarkerPopped(q.popped, e);
    ForgetValid(OnEdge(q, e, Retire(false)), e);
  }

  // -------------------------------------------------------------------------
  // Rebinding

  lemma {:induction false} WithEdgeValid(p: Port, edge: Option<EdgeId>)
    requires Valid(p) && p.edge.None? && (edge.Some? ==> edge.value !in p.chans)
    ensures Valid(WithEdge(p, edge))
  {
    if edge.Some? {
      WithEdgeLined(p, edge.value);
      WithEdgeOrdered(p, edge.value);
      WithEdgeFifo(p, edge.value);
    }
    WithEdgeReleased(p, edge);
  }

  lemma {:induction false} WithEdgeReleased(p: Port, edge: Option<EdgeId>)
    requires ReleasedDone(p) && p.edge.None? && (edge.Some? ==> edge.value !in p.chans)
    ensures ReleasedDone(WithEdge(p, edge))
  {
    var q := WithEdge(p, edge);
    assert Line(p) == p.predecessors;
    forall x | x in q.released ensures LetGo(q, x) {
      assert LetGo(p, x);
    }
  }

  lemma {:induction false} WithEdgeLined(p: Port, e: EdgeId)
    requires Lined(p) && p.edge.None? && e !in p.chans
    ensures Lined(WithEdge(p, Some(e)))
  {
    var q := WithEdge(p, Some(e));
    assert Line(p) == p.predecessors;
    assert Line(q) == p.predecessors + [e];
    assert forall x :: x in p.predecessors ==> x != e;
    assert q.chans.Keys == p.chans.Keys + {e} && q.gen.Keys == p.gen.Keys + {e};
    assert e !in p.gen;
  }

  lemma {:induction false} WithEdgeOrdered(p: Port, e: EdgeId)
    requires Lined(p) && p.edge.None? && Ordered(p) && e !in p.chans
    ensures Ordered(WithEdge(p, Some(e)))
  {
    var q := WithEdge(p, Some(e));
    assert Line(p) == p.predecessors;
    assert e !in p.gen;
    assert forall k :: 0 <= k < |p.popped| ==> p.popped[k].edge != e;
  }

  lemma {:induction false} FromNone(ps: seq<Pop>, e: EdgeId)
    requires forall k :: 0 <= k < |ps| ==> ps[k].edge != e
    ensures From(ps, e) == []
  {
    if ps != [] {
      FromNone(ps[..|ps| - 1], e);
    }
  }

  lemma {:induction false} WithEdgeFifo(p: Port, e: EdgeId)
    requires Lined(p) && p.edge.None? && Ordered(p) && Fifo(p) && e !in p.chans
    ensures Fifo(WithEdge(p, Some(e)))
  {
    var q := WithEdge(p, Some(e));
    assert e !in p.gen;
    FromNone(p.popped, e);
    forall f | f in q.chans ensures FifoAt(q.popped, q.chans[f], f) {
      if f != e {
        assert FifoAt(p.popped, p.chans[f], f);
      }
    }
  }

  /** The current edge joins the line of predecessors. */
  lemma {:induction false} DemoteValid(p: Port)
    requires Valid(p) && p.edge.Some?
    ensures Valid(p.(edge := None, predecessors := p.predecessors + [p.edge.value]))
  {
    var q := p.(edge := None, predecessors := p.predecessors + [p.edge.value]);
    assert Line(q) == Line(p);
    forall x | x in q.released ensures LetGo(q, x) {
      assert LetGo(p, x);
    }
  }

  /** The current edge, ended and empty, is let go. */
  lemma {:induction false} ReleaseValid(p: Port)
    requires Valid(p) && p.edge.Some? && Done(p, p.edge.value)
    ensures Valid(p.(edge := None, released := p.released + {p.edge.value}))
  {
    var q := p.(edge := None, released := p.released + {p.edge.value});
    assert Line(q) == p.predecessors && Line(p) == p.predecessors + [p.edge.value];
    assert forall i :: 0 <= i < |p.predecessors| ==> Line(p)[i] == p.predecessors[i];
    assert Line(p)[|p.predecessors|] == p.edge.value;
    assert p.edge.value !in p.predecessors;
    forall x | x in q.released ensures LetGo(q, x) {
      assert x == p.edge.value || LetGo(p, x);
    }
  }

  lemma {:induction false} IgnoredFields(p: Port, required: bool, ended: bool)
    requires Valid(p)
    ensures Valid(p.(required := required, ended := ended))
  {
    var q := p.(required := required, ended := ended);
    assert Line(q) == Line(p);
    forall x | x in q.released ensures LetGo(q, x) {
      assert LetGo(p, x);
    }
  }

  lemma {:induction false} SetAsideValid(p: Port)
    requires Valid(p)
    ensures Valid(SetAside(p)) && SetAside(p).chans.Keys == p.chans.Keys
  {
    if p.edge.Some? {
      var e := p.edge.value;
      assert e in Line(p);
      if p.ended && p.chans[e].queue == [] {
        OutsideValid(p, e, Retire(false));
        ReleaseValid(OnEdge(p, e, Retire(false)));
        assert OnEdge(p, e, Retire(false)).chans.Keys == p.chans.Keys;
      } else {
        DemoteValid(p);
      }
    }
  }

  lemma {:induction false} RebindValid(p: Port, edge: Option<EdgeId>, required: bool)
    requires Valid(p) && (edge.Some? && edge != p.edge ==> edge.value !in p.chans)
    ensures Valid(Rebind(p, edge, required))
  {
    if edge == p.edge {
      IgnoredFields(p, required, p.ended);
    } else {
      SetAsideValid(p);
      IgnoredFields(SetAside(p), required, false);
      assert edge.Some? ==> edge.value !in SetAside(p).chans.Keys;
      WithEdgeValid(SetAside(p).(required := required, ended := false), edge);
    }
  }

  // -------------------------------------------------------------------------
  // Runs of a port

  datatype Step =
    | Outer(e: EdgeId, a: Outside)
    | Take
    | Drained                             // the marker of a predecessor
    | Ended                               // the marker of the current edge
    | ForceEnd                            // the reference port of an aligned binding ended
    | Rebound(edge: Option<EdgeId>, required: bool)
    | Forgotten(e: EdgeId)

  ghost predicate Enabled(p: Port, a: Step) {
    Bound(p) && match a
    case Outer(e, b) => e in p.chans && Accepts(p.chans[e], b)
    case Take => Head(p).Some?
    case Drained => Head(p) == Some(Eos) && IsPredecessor(p, Active(p).value)
    case Ended => Head(p) == Some(Eos) && !IsPredecessor(p, Active(p).value)
    case ForceEnd => true
    case Rebound(edge, _) => edge.Some? && edge != p.edge ==> edge.value !in p.chans
    case Forgotten(e) => e in p.predecessors && p.edge != Some(e) && Finished(p.chans[e])
  }

  ghost function Do(p: Port, a: Step): Port
    requires Enabled(p, a)
  {
    match a
    case Outer(e, b) => OnEdge(p, e, b)
    case Take => TakeHead(p)
    case Drained => FinishPredecessor(p)
    case Ended => EndPort(p)
    case ForceEnd => p.(ended := true)
    case Rebound(edge, required) => Rebind(p, edge, required)
    case Forgotten(e) => Forget(p, e)
  }

  lemma {:induction false} StepValid(p: Port, a: Step)
    requires Valid(p) && Enabled(p, a)
    ensures Valid(Do(p, a))
  {
    match a
    case Outer(e, b) => OutsideValid(p, e, b);
    case Take => TakeValid(p);
    case Drained => FinishPredecessorValid(p);
    case Ended =>
      TakeValid(p);
      IgnoredFields(TakeHead(p), p.required, true);
    case ForceEnd => IgnoredFields(p, p.required, true);
    case Rebound(edge, required) => RebindValid(p, edge, required);
    case Forgotten(e) => ForgetValid(p, e);
  }

  /** A port that was just added to the table: nothing popped, nothing let go. */
  function NewPort(name: string, required: bool, edge: Option<EdgeId>): Port {
    WithEdge(Port(name, required, None, [], map[], false, map[], 0, [], {}), edge)
  }

  lemma {:induction false} NewPortValid(name: string, required: bool, edge: Option<EdgeId>)
    ensures Valid(NewPort(name, required, edge))
  {
    WithEdgeValid(Port(name, required, None, [], map[], false, map[], 0, [], {}), edge);
  }

  ghost predicate IsNew(p: Port) {
    p == NewPort(p.name, p.required, p.edge)
  }

  ghost predicate IsRun(states: seq<Port>, steps: seq<Step>) {
    && |states| == |steps| + 1
    && IsNew(states[0])
    && forall i :: 0 <= i < |steps| ==> Enabled(states[i], steps[i]) && states[i + 1] == Do(states[i], steps[i])
  }

  lemma {:induction false} RunValid(states: seq<Port>, steps: seq<Step>, i: nat)
    requires IsRun(states, steps) && i < |states|
    ensures Valid(states[i])
  {
    if i == 0 {
      NewPortValid(states[0].name, states[0].required, states[0].edge);
    } else {
      RunValid(states, steps, i - 1);
      StepValid(states[i - 1], steps[i - 1]);
    }
  }

  predicate Pops(a: Step) {
    a.Take? || a.Drained? || a.Ended?
  }

  /**
   * Over any run of pushes, evictions, markers, retirements, rebinds and pops
   * that starts with a new port: a packet comes from an edge only when every
   * older edge of the port is retired, and empty or drained to its marker; the
   * pops never go back to an older edge; and each edge is emptied first in,
   * first out.
   */
  lemma {:induction false} HandoverInOrder(states: seq<Port>, steps: seq<Step>, i: nat, f: EdgeId)
    requires IsRun(states, steps) && i < |steps| && f in states[i].gen
    ensures Bound(states[i])
    ensures Pops(steps[i]) ==>
              && Active(states[i]).Some? && Active(states[i]).value in states[i].gen && f in states[i].chans
              && (states[i].gen[f] < states[i].gen[Active(states[i]).value] ==> Done(states[i], f))
    ensures Rising(states[i].gen, states[i].popped)
    ensures f in states[i].chans && From(states[i].popped, f) <= states[i].chans[f].kept
  {
    RunValid(states, steps, i);
    var p := states[i];
    assert f in p.chans.Keys;
    assert FifoAt(p.popped, p.chans[f], f);
    if Pops(steps[i]) {
      ActiveInLine(p);
      if p.gen[f] < p.gen[Active(p).value] {
        OlderEdgesAreDone(p, f);
      }
    }
  }

  /** An edge is let go only at its marker, once retired and empty, or ended and empty. */
  lemma {:induction false} ReleasedOnlyWhenDone(p: Port, a: Step, f: EdgeId)
    requires Valid(p) && Enabled(p, a) && f in Do(p, a).released && f !in p.released && f in p.chans
    ensures || (a.Drained? && Active(p) == Some(f))
            || (a.Forgotten? && Finished(p.chans[f]))
            || (a.Rebound? && p.edge == Some(f) && p.ended && p.chans[f].queue == [])
    ensures LetGo(Do(p, a), f)
  {
    ReleasedAfter(p, a, f);
  }

  lemma {:induction false} ReleasedAfter(p: Port, a: Step, f: EdgeId)
    requires Valid(p) && Enabled(p, a) && f in Do(p, a).released
    ensures LetGo(Do(p, a), f)
  {
    var q := Do(p, a);
    StepValid(p, a);
    assert ReleasedDone(q);
  }

  /** An edge the port has let go of is done from then on: nothing more is popped from it. */
  lemma {:induction false} ReleasedForGood(states: seq<Port>, steps: seq<Step>, i: nat, j: nat, f: EdgeId)
    requires IsRun(states, steps) && i <= j < |states| && f in states[i].released
    ensures f in states[j].released && LetGo(states[j], f)
    ensures From(states[j].popped, f) == From(states[i].popped, f)
  {
    RunValid(states, steps, j);
    if i < j {
      ReleasedForGood(states, steps, i, j - 1, f);
      RunValid(states, steps, j - 1);
      NothingPopped(states[j - 1], steps[j - 1], f);
    }
  }

  lemma {:induction false} NothingPopped(p: Port, a: Step, f: EdgeId)
    requires Valid(p) && Enabled(p, a) && f in p.released
    ensures f in Do(p, a).released && From(Do(p, a).popped, f) == From(p.popped, f)
  {
    assert LetGo(p, f);
    if Pops(a) {
      ActiveInLine(p);
      FromMore(p.popped, Pop(Active(p).value, Head(p).value), f);
      assert From(p.popped, f) + [] == From(p.popped, f);
    }
  }

  // -------------------------------------------------------------------------
  // Nothing is lost, and when a port has ended

  /** What a run has put into edge e, in order: pushed packets and injected markers. */
  ghost function PutInto(steps: seq<Step>, e: EdgeId): seq<Packet> {
    if steps == [] then []
    else
      var a := steps[|steps| - 1];
      PutInto(steps[..|steps| - 1], e) +
        if !a.Outer? || a.e != e then []
        else match a.a case Push(x) => [x] case InjectEos => [Eos] case _ => []
  }

  /** Nothing was evicted from the edge, and it was not retired with packets queued. */
  ghost predicate NoLoss(steps: seq<Step>, e: EdgeId) {
    forall i :: 0 <= i < |steps| && steps[i].Outer? && steps[i].e == e ==>
      !steps[i].a.Evict? && steps[i].a != Retire(true)
  }

  ghost predicate Holds(p: Port, e: EdgeId, put: seq<Packet>) {
    From(p.popped, e) + (if e in p.chans then p.chans[e].queue else []) == put
  }

  lemma {:induction false} OutsideHolds(p: Port, e: EdgeId, put: seq<Packet>, f: EdgeId, a: Outside)
    requires Holds(p, e, put) && f in p.chans && Accepts(p.chans[f], a)
    requires f == e ==> !a.Evict? && a != Retire(true)
    ensures Holds(OnEdge(p, f, a), e,
                  put + if f != e then [] else match a case Push(x) => [x] case InjectEos => [Eos] case _ => [])
  {
    if f == e {
      var out, c := From(p.popped, e), p.chans[e];
      match a
      case Push(x) => assert out + (c.queue + [x]) == (out + c.queue) + [x];
      case InjectEos => assert out + (c.queue + [Eos]) == (out + c.queue) + [Eos];
      case _ =>
    }
  }

  lemma {:induction false} TakeHolds(p: Port, e: EdgeId, put: seq<Packet>)
    requires Bound(p) && Head(p).Some? && Holds(p, e, put)
    ensures Holds(TakeHead(p), e, put)
  {
    ActiveInLine(p);
    var f := Active(p).value;
    FromMore(p.popped, Pop(f, Head(p).value), e);
    if f == e {
      var c := p.chans[e];
      assert From(p.popped, e) + [c.queue[0]] + c.queue[1..] == From(p.popped, e) + c.queue;
    } else {
      assert From(p.popped, e) + [] == From(p.popped, e);
    }
  }

  lemma {:induction false} RebindHolds(p: Port, e: EdgeId, put: seq<Packet>, edge: Option<EdgeId>, required: bool)
    requires Valid(p) && Holds(p, e, put) && (edge.Some? && edge != p.edge ==> edge.value !in p.chans)
    ensures Holds(Rebind(p, edge, required), e, put)
  {
    AsideKeeps(p, e);
  }

  lemma {:induction false} AsideKeeps(p: Port, e: EdgeId)
    requires Bound(p)
    ensures SetAside(p).popped == p.popped && (e in SetAside(p).chans <==> e in p.chans)
    ensures e in p.chans ==> SetAside(p).chans[e].queue == p.chans[e].queue
  {
    assert p.edge.Some? ==> p.edge.value in Line(p);
  }

  lemma {:induction false} StepHolds(p: Port, e: EdgeId, put: seq<Packet>, a: Step)
    requires Valid(p) && Enabled(p, a) && Holds(p, e, put)
    requires a.Outer? && a.e == e ==> !a.a.Evict? && a.a != Retire(true)
    ensures Holds(Do(p, a), e, put +
              if !a.Outer? || a.e != e then []
              else match a.a case Push(x) => [x] case InjectEos => [Eos] case _ => [])
  {
    if !a.Outer? || a.e != e {
      assert put + [] == put;
    }
    match a
    case Outer(f, b) => OutsideHolds(p, e, put, f, b);
    case Take => TakeHolds(p, e, put);
    case Drained =>
      TakeHolds(p, e, put);
      ActiveInLine(p);
    case Ended => TakeHolds(p, e, put);
    case Rebound(edge, required) => RebindHolds(p, e, put, edge, required);
    case _ =>
  }

  /**
   * Over any run, across every rebind: what was popped from an edge and what it
   * still holds is exactly what was put into it, in order, unless packets were
   * evicted from it or thrown away with it.
   */
  lemma {:induction false} NothingLostInHandover(states: seq<Port>, steps: seq<Step>, i: nat, e: EdgeId)
    requires IsRun(states, steps) && i < |states| && NoLoss(steps[..i], e)
    ensures Holds(states[i], e, PutInto(steps[..i], e))
  {
    if i > 0 {
      var front := steps[..i - 1];
      assert steps[..i][..i - 1] == front;
      assert forall j :: 0 <= j < i - 1 ==> steps[..i][j] == front[j];
      NothingLostInHandover(states, steps, i - 1, e);
      RunValid(states, steps, i - 1);
      assert steps[..i][i - 1] == steps[i - 1];
      StepHolds(states[i - 1], e, PutInto(front, e), steps[i - 1]);
    }
  }

  predicate EndsPort(a: Step) {
    a.Ended? || a.ForceEnd?
  }

  predicate ChangesEdge(p: Port, a: Step) {
    a.Rebound? && a.edge != p.edge
  }

  /** Since step j no rebind has given the port another edge. */
  ghost predicate SameEdge(states: seq<Port>, steps: seq<Step>, j: nat, i: nat)
    requires i <= |steps| <= |states|
  {
    forall k :: j <= k < i ==> !ChangesEdge(states[k], steps[k])
  }

  ghost predicate EndedSince(states: seq<Port>, steps: seq<Step>, i: nat)
    requires i <= |steps| <= |states|
  {
    exists j :: 0 <= j < i && EndsPort(steps[j]) && SameEdge(states, steps, j, i)
  }

  lemma {:induction false} EndedMore(states: seq<Port>, steps: seq<Step>, i: nat)
    requires i < |steps| <= |states|
    ensures EndedSince(states, steps, i + 1) <==>
            EndsPort(steps[i]) || (EndedSince(states, steps, i) && !ChangesEdge(states[i], steps[i]))
  {
    if EndedSince(states, steps, i + 1) {
      var j :| 0 <= j < i + 1 && EndsPort(steps[j]) && SameEdge(states, steps, j, i + 1);
      if j < i {
        assert SameEdge(states, steps, j, i);
      }
    }
    if EndsPort(steps[i]) {
      assert SameEdge(states, steps, i, i + 1);
    } else if EndedSince(states, steps, i) && !ChangesEdge(states[i], steps[i]) {
      var j :| 0 <= j < i && EndsPort(steps[j]) && SameEdge(states, steps, j, i);
      assert SameEdge(states, steps, j, i + 1);
    }
  }

  lemma {:induction false} EndedStep(p: Port, a: Step)
    requires Enabled(p, a)
    ensures Do(p, a).ended <==> EndsPort(a) || (p.ended && !ChangesEdge(p, a))
  {
    if a.Rebound? {
      assert p.edge.Some? ==> p.edge.value in Line(p);
    }
  }

  /** The ended flag along a run. */
  ghost predicate EndedTrail(states: seq<Port>, steps: seq<Step>) {
    && |states| == |steps| + 1 && !states[0].ended
    && forall i :: 0 <= i < |steps| ==> EndedAt(states, steps, i)
  }

  ghost predicate EndedAt(states: seq<Port>, steps: seq<Step>, i: nat)
    requires i < |steps| && |states| == |steps| + 1
  {
    states[i + 1].ended <==> EndsPort(steps[i]) || (states[i].ended && !ChangesEdge(states[i], steps[i]))
  }

  lemma {:induction false} RunTrail(states: seq<Port>, steps: seq<Step>)
    requires IsRun(states, steps)
    ensures EndedTrail(states, steps)
  {
    forall i | 0 <= i < |steps| ensures EndedAt(states, steps, i) {
      assert Enabled(states[i], steps[i]) && states[i + 1] == Do(states[i], steps[i]);
      EndedStep(states[i], steps[i]);
    }
  }

  lemma {:induction false} TrailEnded(states: seq<Port>, steps: seq<Step>, i: nat)
    requires EndedTrail(states, steps) && i < |states|
    ensures states[i].ended <==> EndedSince(states, steps, i)
  {
    if i > 0 {
      TrailEnded(states, steps, i - 1);
      assert EndedAt(states, steps, i - 1);
      EndedMore(states, steps, i - 1);
    }
  }

  /** A port has ended exactly if its marker came, or the input ended, since it was given its edge. */
  lemma {:induction false} EndedIff(states: seq<Port>, steps: seq<Step>, i: nat)
    requires IsRun(states, steps) && i < |states|
    ensures states[i].ended <==> EndedSince(states, steps, i)
  {
    RunTrail(states, steps);
    TrailEnded(states, steps, i);
  }

  // -------------------------------------------------------------------------
  // How much is queued

  function QueuedIn(chans: map<EdgeId, Chan>, line: seq<EdgeId>): nat {
    if line == [] then 0
    else
      var e := line[|line| - 1];
      QueuedIn(chans, line[..|line| - 1]) + if e in chans then |chans[e].queue| else 0
  }

  function Queued(p: Port): nat {
    QueuedIn(p.chans, Line(p))
  }

  lemma {:induction false} QueuedElsewhere(chans: map<EdgeId, Chan>, line: seq<EdgeId>, e: EdgeId, c: Chan)
    requires e !in line
    ensures QueuedIn(chans[e := c], line) == QueuedIn(chans, line)
  {
    if line != [] {
      QueuedElsewhere(chans, line[..|line| - 1], e, c);
    }
  }

  /** One edge of the line changes: the total changes by as much. */
  lemma {:induction false} QueuedChange(gen: map<EdgeId, nat>, chans: map<EdgeId, Chan>, line: seq<EdgeId>, e: EdgeId,
        c: Chan)
    requires Sorted(gen, line) && e in line && e in chans
    ensures QueuedIn(chans[e := c], line) == QueuedIn(chans, line) - |chans[e].queue| + |c.queue|
  {
    var front, last := line[..|line| - 1], line[|line| - 1];
    if last == e {
      forall i | 0 <= i < |front| ensures front[i] != e {
        assert front[i] == line[i];
      }
      QueuedElsewhere(chans, front, e, c);
    } else {
      assert e in front;
      QueuedChange(gen, chans, front, e, c);
    }
  }

  lemma {:induction false} QueuedErase(chans: map<EdgeId, Chan>, line: seq<EdgeId>, e: EdgeId)
    ensures QueuedIn(chans, Erase(line, e)) <= QueuedIn(chans, line)
  {
    if line != [] {
      var front, last := line[..|line| - 1], line[|line| - 1];
      QueuedErase(chans, front, e);
      if last == e {
        assert Erase(front, e) + [] == Erase(front, e);
      } else {
        assert (Erase(front, e) + [last])[..|Erase(front, e)|] == Erase(front, e);
      }
    }
  }

  lemma {:induction false} TakeQueued(p: Port)
    requires Lined(p) && Head(p).Some?
    ensures Queued(TakeHead(p)) == Queued(p) - 1
  {
    ActiveInLine(p);
    var e := Active(p).value;
    var c := p.chans[e];
    QueuedChange(p.gen, p.chans, Line(p), e, c.(queue := c.queue[1..]));
    assert Line(TakeHead(p)) == Line(p);
  }

  lemma {:induction false} FinishQueued(p: Port)
    requires Lined(p) && Head(p) == Some(Eos) && IsPredecessor(p, Active(p).value)
    ensures Queued(FinishPredecessor(p)) < Queued(p)
  {
    ActiveInLine(p);
    TakeQueued(p);
    TakeLined(p);
    var e, q := Active(p).value, TakeHead(p);
    var r := OnEdge(q, e, Retire(false));
    QueuedChange(q.gen, q.chans, Line(q), e, q.chans[e].(state := Retired));
    ForgetLine(r, e);
    QueuedErase(r.chans, Line(r), e);
    assert FinishPredecessor(p) == Forget(r, e);
  }
}
