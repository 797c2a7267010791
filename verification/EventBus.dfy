/**
 * EventBus: publishers, observer threads and cancelling threads around one
 * mutex. Every section under the mutex is one step; a handler runs between two
 * steps of its observer thread. Publishing an event is one Offer per matching
 * subscription.
 */
module EventBus {
  import opened Wrappers

  type SubId = nat
  type Thread = nat
  type Event = int

  /**
   * accepted and handled are histories: the matching events that were not
   * dropped, and those whose handler has returned. inHand is the event the
   * handler is running on, drainer the observer thread that has the subscription.
   */
  datatype Sub = Sub(
    queue: seq<Event>, scheduled: bool, cancelled: bool, registered: bool,
    accepted: seq<Event>, inHand: Option<Event>, handled: seq<Event>, drainer: Option<Thread>)

  /** An observer thread is waiting for work, between two events, or in a handler. */
  datatype Observer = Idle | Draining(sub: SubId) | Handling(sub: SubId)

  /** waiting: threads inside Cancel; quiet: subscriptions some waiting Cancel has returned for. */
  datatype State = State(
    capacity: nat, subs: map<SubId, Sub>, ready: seq<SubId>, observers: map<Thread, Observer>,
    waiting: map<Thread, SubId>, quiet: set<SubId>)

  datatype Step =
    | Subscribe(id: SubId)
    | Offer(id: SubId, event: Event)
    | Pick(w: Thread)                          // Worker takes the front of ready_
    | Next(w: Thread)                          // Drain looks for the next event
    | Return(w: Thread)                        // the handler returns
    | Cancel(t: Thread, id: SubId)             // an observer calls it from a handler
    | CancelReturns(t: Thread)

  predicate Enabled(s: State, a: Step) {
    match a
    case Subscribe(id) => id !in s.subs
    case Offer(id, _) => id in s.subs && s.subs[id].registered
    case Pick(w) => w in s.observers && s.observers[w].Idle? && s.ready != [] && s.ready[0] in s.subs
    case Next(w) => w in s.observers && s.observers[w].Draining? && s.observers[w].sub in s.subs
    case Return(w) => w in s.observers && s.observers[w].Handling? && s.observers[w].sub in s.subs
    case Cancel(t, _) => t !in s.waiting && (t in s.observers ==> s.observers[t].Handling?)
    case CancelReturns(t) => t in s.waiting && s.waiting[t] in s.subs && !s.subs[s.waiting[t]].scheduled
  }

  function NewSub(): Sub {
    Sub([], false, false, true, [], None, [], None)
  }

  /** Publish for one subscription whose filter matches. */
  function Offered(b: Sub, capacity: nat, event: Event): Sub {
    if b.cancelled || |b.queue| >= capacity then b
    else b.(queue := b.queue + [event], accepted := b.accepted + [event], scheduled := true)
  }

  predicate Done(b: Sub) {
    b.cancelled || b.queue == []
  }

  function Popped(b: Sub): Sub
    requires !Done(b)
  {
    b.(inHand := Some(b.queue[0]), queue := b.queue[1..])
  }

  function Returned(b: Sub): Sub {
    if b.inHand.None? then b else b.(inHand := None, handled := b.handled + [b.inHand.value])
  }

  function CancelledSub(b: Sub): Sub {
    b.(cancelled := true, registered := false, queue := [])
  }

  function Do(s: State, a: Step): State
    requires Enabled(s, a)
  {
    match a
    case Subscribe(id) => s.(subs := s.subs[id := NewSub()])
    case Offer(id, event) =>
      var b := Offered(s.subs[id], s.capacity, event);
      s.(subs := s.subs[id := b],
         ready := if b.scheduled && !s.subs[id].scheduled then s.ready + [id] else s.ready)
    case Pick(w) =>
      var id := s.ready[0];
      s.(ready := s.ready[1..], observers := s.observers[w := Draining(id)],
         subs := s.subs[id := s.subs[id].(drainer := Some(w))])
    case Next(w) =>
      var id := s.observers[w].sub;
      if Done(s.subs[id]) then
        s.(subs := s.subs[id := s.subs[id].(scheduled := false, drainer := None)], observers := s.observers[w := Idle])
      else
        s.(subs := s.subs[id := Popped(s.subs[id])], observers := s.observers[w := Handling(id)])
    case Return(w) =>
      var id := s.observers[w].sub;
      s.(subs := s.subs[id := Returned(s.subs[id])], observers := s.observers[w := Draining(id)])
    case Cancel(t, id) =>
      if id !in s.subs || !s.subs[id].registered then s
      else
        s.(subs := s.subs[id := CancelledSub(s.subs[id])],
           waiting := if t in s.observers then s.waiting else s.waiting[t := id])
    case CancelReturns(t) =>
      s.(waiting := s.waiting - {t}, quiet := s.quiet + {s.waiting[t]})
  }

  predicate Init(s: State) {
    s.subs == map[] && s.ready == [] && s.waiting == map[] && s.quiet == {}
    && forall w :: w in s.observers ==> s.observers[w].Idle?
  }

  // -------------------------------------------------------------------------
  // Delivery order of one subscription

  function Hand(b: Sub): seq<Event> {
    if b.inHand.Some? then [b.inHand.value] else []
  }

  /** Live: handled, in hand and queued are the accepted events in order. Cancelled: a prefix of them. */
  ghost predicate InOrder(b: Sub) {
    && (!b.cancelled ==> b.handled + Hand(b) + b.queue == b.accepted)
    && b.handled + Hand(b) <= b.accepted
  }

  ghost predicate SubOk(b: Sub) {
    && InOrder(b)
    && (b.cancelled <==> !b.registered)
    && (b.cancelled ==> b.queue == [])
    && (b.queue != [] ==> b.scheduled)
    && (b.inHand.Some? ==> b.scheduled)
  }

  lemma {:induction false} OfferedOk(b: Sub, capacity: nat, event: Event)
    requires SubOk(b)
    ensures SubOk(Offered(b, capacity, event))
  {
    assert b.handled + Hand(b) + (b.queue + [event]) == b.handled + Hand(b) + b.queue + [event];
  }

  lemma {:induction false} PoppedOk(b: Sub)
    requires SubOk(b) && !Done(b) && b.inHand.None? && b.scheduled
    ensures SubOk(Popped(b))
  {
    assert b.handled + [b.queue[0]] + b.queue[1..] == b.handled + [] + b.queue;
  }

  lemma {:induction false} ReturnedOk(b: Sub)
    requires SubOk(b)
    ensures SubOk(Returned(b))
  {
    var c := Returned(b);
    assert c.handled + Hand(c) == b.handled + Hand(b);
  }

  lemma {:induction false} CancelledOk(b: Sub)
    requires SubOk(b)
    ensures SubOk(CancelledSub(b))
  {
    assert Hand(CancelledSub(b)) == Hand(b);
  }

  // -------------------------------------------------------------------------
  // Scheduling

  predicate On(o: Observer, id: SubId) {
    !o.Idle? && o.sub == id
  }

  ghost predicate Distinct(ready: seq<SubId>) {
    forall i, j :: 0 <= i < j < |ready| ==> ready[i] != ready[j]
  }

  /** Scheduled means: once in the ready list, or with one observer, not both. */
  ghost predicate Placed(b: Sub, inReady: bool) {
    && (b.scheduled <==> inReady || b.drainer.Some?)
    && !(inReady && b.drainer.Some?)
    && (b.inHand.Some? ==> b.drainer.Some?)
  }

  /** An observer is on a subscription exactly when that subscription says so. */
  ghost predicate Attended(b: Sub, observers: map<Thread, Observer>, id: SubId) {
    && (forall w :: w in observers && On(observers[w], id) ==> b.drainer == Some(w))
    && (b.drainer.Some? ==> b.drainer.value in observers && On(observers[b.drainer.value], id))
    && (b.drainer.Some? ==> (b.inHand.Some? <==> observers[b.drainer.value].Handling?))
  }

  ghost predicate SubSafe(s: State, id: SubId)
    requires id in s.subs
  {
    SubOk(s.subs[id]) && Placed(s.subs[id], id in s.ready) && Attended(s.subs[id], s.observers, id)
  }

  ghost predicate Known(s: State) {
    && (forall i :: 0 <= i < |s.ready| ==> s.ready[i] in s.subs)
    && (forall w :: w in s.observers && !s.observers[w].Idle? ==> s.observers[w].sub in s.subs)
  }

  ghost predicate Silent(s: State) {
    && (forall t :: t in s.waiting ==> s.waiting[t] in s.subs && s.subs[s.waiting[t]].cancelled)
    && (forall id :: id in s.quiet ==> id in s.subs && s.subs[id].cancelled && !s.subs[id].scheduled)
  }

  ghost predicate Safe(s: State) {
    && Distinct(s.ready) && Known(s) && Silent(s)
    && (forall id :: id in s.subs ==> SubSafe(s, id))
  }

  lemma {:induction false} SubscribeSafe(s: State, id: SubId)
    requires Safe(s) && Enabled(s, Subscribe(id))
    ensures Safe(Do(s, Subscribe(id)))
  {
    var s' := Do(s, Subscribe(id));
    forall x | x in s'.subs ensures SubSafe(s', x) {
      if x != id {
        assert SubSafe(s, x);
      }
    }
  }

  lemma {:induction false} OfferSafe(s: State, id: SubId, event: Event)
    requires Safe(s) && Enabled(s, Offer(id, event))
    ensures Safe(Do(s, Offer(id, event)))
  {
    var s' := Do(s, Offer(id, event));
    assert SubSafe(s, id);
    OfferedOk(s.subs[id], s.capacity, event);
    forall x | x in s'.subs ensures SubSafe(s', x) {
      assert SubSafe(s, x);
      assert x != id ==> (x in s'.ready <==> x in s.ready);
    }
  }

  lemma {:induction false} PickSafe(s: State, w: Thread)
    requires Safe(s) && Enabled(s, Pick(w))
    ensures Safe(Do(s, Pick(w)))
  {
    var s', id := Do(s, Pick(w)), s.ready[0];
    assert s.ready == [id] + s'.ready;
    assert SubSafe(s, id);
    forall x | x in s'.subs ensures SubSafe(s', x) {
      assert SubSafe(s, x);
      assert x != id ==> (x in s'.ready <==> x in s.ready);
    }
  }

  lemma {:induction false} NextSafe(s: State, w: Thread)
    requires Safe(s) && Enabled(s, Next(w))
    ensures Safe(Do(s, Next(w)))
  {
    var s', id := Do(s, Next(w)), s.observers[w].sub;
    assert SubSafe(s, id) && On(s.observers[w], id);
    if !Done(s.subs[id]) {
      PoppedOk(s.subs[id]);
    }
    forall x | x in s'.subs ensures SubSafe(s', x) {
      assert SubSafe(s, x);
    }
  }

  lemma {:induction false} ReturnSafe(s: State, w: Thread)
    requires Safe(s) && Enabled(s, Return(w))
    ensures Safe(Do(s, Return(w)))
  {
    var s', id := Do(s, Return(w)), s.observers[w].sub;
    assert SubSafe(s, id) && On(s.observers[w], id);
    ReturnedOk(s.subs[id]);
    forall x | x in s'.subs ensures SubSafe(s', x) {
      assert SubSafe(s, x);
    }
  }

  lemma {:induction false} CancelSafe(s: State, t: Thread, id: SubId)
    requires Safe(s) && Enabled(s, Cancel(t, id))
    ensures Safe(Do(s, Cancel(t, id)))
  {
    var s' := Do(s, Cancel(t, id));
    if id in s.subs && s.subs[id].registered {
      assert SubSafe(s, id);
      CancelledOk(s.subs[id]);
      forall x | x in s'.subs ensures SubSafe(s', x) {
        assert SubSafe(s, x);
      }
    }
  }

  lemma {:induction false} StepSafe(s: State, a: Step)
    requires Safe(s) && Enabled(s, a)
    ensures Safe(Do(s, a))
  {
    match a
    case Subscribe(id) => SubscribeSafe(s, id);
    case Offer(id, event) => OfferSafe(s, id, event);
    case Pick(w) => PickSafe(s, w);
    case Next(w) => NextSafe(s, w);
    case Return(w) => ReturnSafe(s, w);
    case Cancel(t, id) => CancelSafe(s, t, id);
    case CancelReturns(t) =>
      forall x | x in s.subs ensures SubSafe(Do(s, a), x) {
        assert SubSafe(s, x);
      }
  }

  // -------------------------------------------------------------------------
  // Runs

  ghost predicate IsRun(states: seq<State>, steps: seq<Step>) {
    && |states| == |steps| + 1
    && Init(states[0])
    && forall i {:trigger steps[i]} :: 0 <= i < |steps| ==>
         Enabled(states[i], steps[i]) && states[i + 1] == Do(states[i], steps[i])
  }

  lemma {:induction false} RunSafe(states: seq<State>, steps: seq<Step>, i: nat)
    requires IsRun(states, steps) && i < |states|
    ensures Safe(states[i])
  {
    if i > 0 {
      RunSafe(states, steps, i - 1);
      StepSafe(states[i - 1], steps[i - 1]);
    }
  }

  /**
   * A subscription is scheduled exactly when it is once in the ready list or
   * one observer has it, never both; a live one with events queued is scheduled.
   */
  lemma {:induction false} ScheduledOnce(states: seq<State>, steps: seq<Step>, i: nat, id: SubId)
    requires IsRun(states, steps) && i < |states| && id in states[i].subs
    ensures var s := states[i];
            var attended := exists w :: w in s.observers && On(s.observers[w], id);
            && (s.subs[id].scheduled <==> id in s.ready || attended)
            && !(id in s.ready && attended)
            && Distinct(s.ready)
            && (forall v, w :: v in s.observers && w in s.observers && On(s.observers[v], id) && On(s.observers[w], id) ==> v == w)
            && (s.subs[id].queue != [] ==> s.subs[id].scheduled)
  {
    RunSafe(states, steps, i);
    assert SubSafe(states[i], id);
  }

  /** The subscriptions as they became scheduled, and as observers took them. */
  function Woken(states: seq<State>, steps: seq<Step>, n: nat): seq<SubId>
    requires n <= |steps| && n < |states|
  {
    if n == 0 then []
    else
      var a := steps[n - 1];
      Woken(states, steps, n - 1) +
        if a.Offer? && Sleeps(states[n - 1], a.id) && !Sleeps(states[n], a.id) then [a.id] else []
  }

  predicate Sleeps(s: State, id: SubId) {
    id !in s.subs || !s.subs[id].scheduled
  }

  function Taken(states: seq<State>, steps: seq<Step>, n: nat): seq<SubId>
    requires n <= |steps| && n < |states|
  {
    if n == 0 then []
    else
      var a := steps[n - 1];
      Taken(states, steps, n - 1) +
        if a.Pick? && a.w in states[n].observers && states[n].observers[a.w].Draining?
        then [states[n].observers[a.w].sub] else []
  }

  /** Observers take up subscriptions in the order these became scheduled. */
  lemma {:induction false} ServedInOrder(states: seq<State>, steps: seq<Step>, n: nat)
    requires IsRun(states, steps) && n < |states|
    ensures Woken(states, steps, n) == Taken(states, steps, n) + states[n].ready
  {
    if n > 0 {
      ServedInOrder(states, steps, n - 1);
      ReadyStep(states[n - 1], steps[n - 1]);
      assert states[n] == Do(states[n - 1], steps[n - 1]);
    }
  }

  lemma {:induction false} ReadyStep(s: State, a: Step)
    requires Enabled(s, a)
    ensures a.Pick? ==>
              var o := Do(s, a).observers;
              a.w in o && o[a.w].Draining? && s.ready == [o[a.w].sub] + Do(s, a).ready
    ensures a.Offer? ==>
              (Do(s, a).ready == s.ready + if Sleeps(s, a.id) && !Sleeps(Do(s, a), a.id) then [a.id] else [])
    ensures !a.Pick? && !a.Offer? ==> Do(s, a).ready == s.ready
  {
  }

  /** The events offered to a subscription while its queue had room, read off the steps. */
  function Fitting(states: seq<State>, steps: seq<Step>, id: SubId, n: nat): seq<Event>
    requires n <= |steps| && n <= |states|
  {
    if n == 0 then []
    else
      var s, a := states[n - 1], steps[n - 1];
      Fitting(states, steps, id, n - 1) +
        if a.Offer? && a.id == id && id in s.subs && |s.subs[id].queue| < s.capacity then [a.event] else []
  }

  lemma {:induction false} AcceptedStep(s: State, a: Step, id: SubId)
    requires Safe(s) && Enabled(s, a) && id in Do(s, a).subs
    ensures Do(s, a).capacity == s.capacity
    ensures id !in s.subs ==> Do(s, a).subs[id].accepted == [] && !(a.Offer? && a.id == id)
    ensures id in s.subs ==>
              (Do(s, a).subs[id].accepted == s.subs[id].accepted +
                 if a.Offer? && a.id == id && |s.subs[id].queue| < s.capacity then [a.event] else [])
  {
    if id in s.subs {
      assert SubSafe(s, id);
    }
  }

  lemma {:induction false} SubsStay(states: seq<State>, steps: seq<Step>, i: nat, id: SubId)
    requires IsRun(states, steps) && 0 < i < |states| && id !in states[i].subs
    ensures id !in states[i - 1].subs
  {
    assert states[i] == Do(states[i - 1], steps[i - 1]);
  }

  lemma {:induction false} NothingFits(states: seq<State>, steps: seq<Step>, i: nat, id: SubId)
    requires IsRun(states, steps) && i < |states| && id !in states[i].subs
    ensures Fitting(states, steps, id, i) == []
  {
    if i > 0 {
      SubsStay(states, steps, i, id);
      NothingFits(states, steps, i - 1, id);
    }
  }

  lemma {:induction false} AcceptedAreFitting(states: seq<State>, steps: seq<Step>, i: nat, id: SubId)
    requires IsRun(states, steps) && i < |states| && id in states[i].subs
    ensures states[i].subs[id].accepted == Fitting(states, steps, id, i)
  {
    if i > 0 {
      RunSafe(states, steps, i - 1);
      AcceptedStep(states[i - 1], steps[i - 1], id);
      if id in states[i - 1].subs {
        AcceptedAreFitting(states, steps, i - 1, id);
      } else {
        NothingFits(states, steps, i - 1, id);
      }
    }
  }

  /**
   * Handlers see exactly the events that were offered while there was room, in
   * publish order and each once: those handled, in hand and queued are all of
   * them, and for a cancelled subscription the first of them.
   */
  lemma {:induction false} DeliveredInOrder(states: seq<State>, steps: seq<Step>, i: nat, id: SubId)
    requires IsRun(states, steps) && i < |states| && id in states[i].subs
    ensures var b, offered := states[i].subs[id], Fitting(states, steps, id, i);
            && b.handled + Hand(b) <= offered
            && (!b.cancelled ==> b.handled + Hand(b) + b.queue == offered)
  {
    RunSafe(states, steps, i);
    assert SubSafe(states[i], id);
    AcceptedAreFitting(states, steps, i, id);
  }

  lemma {:induction false} CancelledStays(s: State, a: Step, id: SubId)
    requires Enabled(s, a) && id in s.subs && s.subs[id].cancelled
    ensures id in Do(s, a).subs && Do(s, a).subs[id].cancelled
    ensures s.quiet <= Do(s, a).quiet
  {
  }

  lemma {:induction false} CancelledForGood(states: seq<State>, steps: seq<Step>, i: nat, j: nat, id: SubId)
    requires IsRun(states, steps) && i <= j < |states| && id in states[i].subs && states[i].subs[id].cancelled
    ensures id in states[j].subs && states[j].subs[id].cancelled && states[i].quiet <= states[j].quiet
  {
    if i < j {
      CancelledForGood(states, steps, i, j - 1, id);
      CancelledStays(states[j - 1], steps[j - 1], id);
    }
  }

  predicate StartsHandler(s: State, a: Step, id: SubId) {
    a.Next? && a.w in s.observers && s.observers[a.w] == Draining(id) && id in s.subs && !Done(s.subs[id])
  }

  /** Once a subscription is cancelled no handler call for it begins. */
  lemma {:induction false} NoHandlerStartsAfterCancel(states: seq<State>, steps: seq<Step>, i: nat, j: nat, id: SubId)
    requires IsRun(states, steps) && i <= j < |steps| && id in states[i].subs && states[i].subs[id].cancelled
    ensures !StartsHandler(states[j], steps[j], id)
  {
    CancelledForGood(states, steps, i, j, id);
  }

  /** After a Cancel that found the subscription returns to a non-observer, its handler never runs. */
  lemma {:induction false} QuietAfterCancelReturns(states: seq<State>, steps: seq<Step>, i: nat, j: nat, w: Thread)
    requires IsRun(states, steps) && i < |steps| && steps[i].CancelReturns? && i < j < |states| && w in states[j].observers
    ensures var id := states[i].waiting[steps[i].t];
            states[j].observers[w] != Handling(id) && id in states[j].quiet
  {
    var id := states[i].waiting[steps[i].t];
    RunSafe(states, steps, i + 1);
    assert id in states[i + 1].quiet;
    CancelledForGood(states, steps, i + 1, j, id);
    RunSafe(states, steps, j);
    assert SubSafe(states[j], id);
  }

  // -------------------------------------------------------------------------
  // A Cancel that does not wait

  /** Cancel looks no further: the id is unknown by now, or the caller is an observer. */
  predicate ReturnsAtOnce(s: State, t: Thread, id: SubId) {
    t in s.observers || id !in s.subs || !s.subs[id].registered
  }

  /** A handler call for id runs on a thread other than t. */
  ghost predicate RunsElsewhere(s: State, t: Thread, id: SubId) {
    exists w :: w in s.observers && w != t && s.observers[w] == Handling(id)
  }

  /** A handler call of a cancelled subscription was begun before. */
  lemma {:induction false} HandlersOnlyFinish(states: seq<State>, steps: seq<Step>, i: nat, j: nat, w: Thread, id: SubId)
    requires IsRun(states, steps) && i <= j < |states| && id in states[i].subs && states[i].subs[id].cancelled
    requires w in states[j].observers && states[j].observers[w] == Handling(id)
    ensures w in states[i].observers && states[i].observers[w] == Handling(id)
  {
    if i < j {
      CancelledForGood(states, steps, i, j - 1, id);
      HandlingStep(states[j - 1], steps[j - 1], w, id);
      HandlersOnlyFinish(states, steps, i, j - 1, w, id);
    }
  }

  lemma {:induction false} HandlingStep(s: State, a: Step, w: Thread, id: SubId)
    requires Enabled(s, a) && id in s.subs && s.subs[id].cancelled
    requires w in Do(s, a).observers && Do(s, a).observers[w] == Handling(id)
    ensures w in s.observers && s.observers[w] == Handling(id)
  {
  }

  lemma {:induction false} CancelStep(s: State, t: Thread, id: SubId)
    requires Safe(s) && Enabled(s, Cancel(t, id)) && id in s.subs
    ensures var s' := Do(s, Cancel(t, id));
            s'.observers == s.observers && id in s'.subs && s'.subs[id].cancelled
            && (t in s'.waiting <==> !ReturnsAtOnce(s, t, id))
  {
    assert SubSafe(s, id);
  }

  /**
   * The header promises that after Cancel no handler of the subscription runs,
   * except the one Cancel was called from. A Cancel that does not wait keeps
   * this exactly when no other thread is in a handler of it at the time.
   */
  lemma {:induction false} CancelWithoutWaiting(states: seq<State>, steps: seq<Step>, i: nat, t: Thread, id: SubId)
    requires IsRun(states, steps) && i < |steps| && steps[i] == Cancel(t, id) && id in states[i].subs
    ensures t !in states[i + 1].waiting <==> ReturnsAtOnce(states[i], t, id)
    ensures (forall j :: i < j < |states| ==> !RunsElsewhere(states[j], t, id)) <==> !RunsElsewhere(states[i], t, id)
  {
    RunSafe(states, steps, i);
    CancelStep(states[i], t, id);
    forall j | i < j < |states| && RunsElsewhere(states[j], t, id) ensures RunsElsewhere(states[i], t, id) {
      var w :| w in states[j].observers && w != t && states[j].observers[w] == Handling(id);
      HandlersOnlyFinish(states, steps, i + 1, j, w, id);
    }
    assert RunsElsewhere(states[i], t, id) ==> RunsElsewhere(states[i + 1], t, id);
  }

  /**
   * A second Cancel of the same id returns at once, found or not: here it comes
   * back while the handler is still running.
   */
  lemma {:induction false} SecondCancelDoesNotWait() returns (states: seq<State>, steps: seq<Step>)
    ensures IsRun(states, steps) && |steps| == 6
    ensures steps[5] == Cancel(2, 7) && 2 !in states[5].observers && 2 !in states[6].waiting
    ensures 7 in states[5].subs && !states[5].subs[7].registered
    ensures states[6] == states[5] && RunsElsewhere(states[6], 2, 7)
  {
    var s0 := State(4, map[], [], map[0 := Idle], map[], {});
    steps := [Subscribe(7), Offer(7, 1), Pick(0), Next(0), Cancel(1, 7), Cancel(2, 7)];
    var s1 := Do(s0, steps[0]);
    var s2 := Do(s1, steps[1]);
    var s3 := Do(s2, steps[2]);
    var s4 := Do(s3, steps[3]);
    var s5 := Do(s4, steps[4]);
    var s6 := Do(s5, steps[5]);
    states := [s0, s1, s2, s3, s4, s5, s6];
    assert s6.observers[0] == Handling(7);
  }

  lemma {:induction false} RunMore(states: seq<State>, steps: seq<Step>, a: Step)
    requires IsRun(states, steps) && Enabled(states[|steps|], a)
    ensures IsRun(states + [Do(states[|steps|], a)], steps + [a])
  {
  }

  /** From any run an idle observer can be brought into the handler of a new subscription. */
  lemma {:induction false} StartHandler(states0: seq<State>, steps0: seq<Step>, w: Thread, id: SubId)
    returns (states: seq<State>, steps: seq<Step>)
    requires IsRun(states0, steps0)
    requires var s := states0[|steps0|];
             id !in s.subs && s.ready == [] && s.capacity > 0 && w in s.observers && s.observers[w].Idle?
    ensures IsRun(states, steps) && |steps| == |steps0| + 4
    ensures var s, s' := states0[|steps0|], states[|steps|];
            && s'.observers == s.observers[w := Handling(id)] && s'.ready == [] && s'.capacity == s.capacity
            && s'.waiting == s.waiting && s'.subs.Keys == s.subs.Keys + {id} && s'.subs[id].registered
            && (forall x :: x in s.subs ==> s'.subs[x] == s.subs[x])
  {
    var s := states0[|steps0|];
    var s1 := Do(s, Subscribe(id));
    RunMore(states0, steps0, Subscribe(id));
    var s2 := Do(s1, Offer(id, 0));
    RunMore(states0 + [s1], steps0 + [Subscribe(id)], Offer(id, 0));
    assert s2.ready == [id];
    var s3 := Do(s2, Pick(w));
    RunMore(states0 + [s1] + [s2], steps0 + [Subscribe(id)] + [Offer(id, 0)], Pick(w));
    var s4 := Do(s3, Next(w));
    RunMore(states0 + [s1] + [s2] + [s3], steps0 + [Subscribe(id)] + [Offer(id, 0)] + [Pick(w)], Next(w));
    states := states0 + [s1] + [s2] + [s3] + [s4];
    steps := steps0 + [Subscribe(id)] + [Offer(id, 0)] + [Pick(w)] + [Next(w)];
  }

  /**
   * A handler that cancels another subscription, the first Cancel it gets,
   * returns while the handler of that one runs on a second observer.
   */
  lemma {:induction false} ObserverCancelDoesNotWait() returns (states: seq<State>, steps: seq<Step>)
    ensures IsRun(states, steps) && |steps| == 9
    ensures steps[8] == Cancel(1, 7) && 1 in states[8].observers && states[8].observers[1] == Handling(8)
    ensures 7 in states[8].subs && states[8].subs[7].registered
    ensures 1 !in states[9].waiting && RunsElsewhere(states[9], 1, 7)
  {
    states, steps := [State(4, map[], [], map[0 := Idle, 1 := Idle], map[], {})], [];
    states, steps := StartHandler(states, steps, 0, 7);
    states, steps := StartHandler(states, steps, 1, 8);
    var s := Do(states[8], Cancel(1, 7));
    RunMore(states, steps, Cancel(1, 7));
    states, steps := states + [s], steps + [Cancel(1, 7)];
    assert s.observers[0] == Handling(7);
  }

  /**
   * Exactly when a Cancel waits, and what one that does not wait leaves running:
   * a handler of the subscription runs on its return iff one is running now.
   */
  lemma {:induction false} CancelWaitsIffRegistered(s: State, t: Thread, id: SubId)
    requires Safe(s) && Enabled(s, Cancel(t, id))
    ensures t in Do(s, Cancel(t, id)).waiting <==> t !in s.observers && id in s.subs && s.subs[id].registered
    ensures id in s.subs ==>
              (Do(s, Cancel(t, id)).subs[id].inHand.Some? <==>
               exists w :: w in s.observers && s.observers[w] == Handling(id))
  {
    if id in s.subs {
      assert SubSafe(s, id);
    }
  }
}
