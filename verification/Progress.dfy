/**
 * None of the packet protocols gets stuck: in every state a run can reach,
 * whatever waits has a step that moves it on.
 */
module Progress {
  import R = AsyncRequests
  import O = AsyncOutputs
  import B = Backpressure
  import E = EventBus

  /** The oldest request of a key can leave its buffer, or can be given the outcome it lacks. */
  ghost predicate HeadMoves(s: R.State, k: R.Key)
    requires R.Reqs(s.order, k) != []
  {
    var r := R.Reqs(s.order, k)[0];
    if r !in s.inFlight then R.Enabled(s, R.Prune(k))
    else if !s.inFlight[r].phase.Open? then s.held != {} || R.Enabled(s, R.Take(k))
    else
      && (forall x :: CanAnswer(s, r, x))
      && (R.Enabled(s, R.Flush(r)) && (s.inFlight[r].phase.submitted ==> R.Enabled(s, R.Expire(k))))
  }

  /** A completion under the session and versions of an open request answers it. */
  ghost predicate CanAnswer(s: R.State, r: R.Request, x: R.Result)
    requires r in s.inFlight
  {
    var e := s.inFlight[r];
    var a := R.Complete(r, e.key.version, e.stamp, x);
    R.Enabled(s, a) && r in R.Do(s, a).inFlight && R.Do(s, a).inFlight[r].phase == R.Answered(x)
  }

  /**
   * In every run: the head of each buffer moves; a request taken or dropped can
   * be ended; and a node that has begun a request can submit it under any new number.
   */
  lemma {:induction false} RequestsMove(states: seq<R.State>, steps: seq<R.Step>, i: nat)
    requires R.IsRun(states, steps) && i < |states|
    ensures forall k :: R.Reqs(states[i].order, k) != [] ==> HeadMoves(states[i], k)
    ensures forall r :: r in states[i].held ==> R.Enabled(states[i], R.Finish(r))
    ensures forall r :: r in states[i].detaching ==> R.Enabled(states[i], R.FinishDropped(r))
    ensures forall r, k: R.Key, stamp :: r !in states[i].keyOf && R.Num(states[i].beginning, k.node) > 0 ==>
              R.Enabled(states[i], R.Submit(r, k, stamp))
  {
    R.RunSafe(states, steps, i);
    var s := states[i];
    forall r | r in s.held || r in s.detaching ensures r in s.keyOf {
      assert r in s.keyOf.Keys;
    }
    forall k | R.Reqs(s.order, k) != [] ensures HeadMoves(s, k) {
      var r := R.Reqs(s.order, k)[0];
      if r in s.inFlight && s.inFlight[r].phase.Open? {
        forall x ensures CanAnswer(s, r, x) {
        }
      }
    }
  }

  /** The consumer always has a next step, and when it is ready any key can be retried or delivered to. */
  lemma {:induction false} OutputsMove(s: O.Outs, k: O.Key, outputs: seq<O.Output>, full: set<O.Edge>, refused: bool)
    ensures s.task.Ready? && k in s.blocked ==> O.Enabled(s, O.StartRetry(k))
    ensures s.task.Ready? && k !in s.blocked ==> O.Enabled(s, O.Deliver(k, outputs))
    ensures s.task.Delivering? ==> O.Enabled(s, O.Emit(full)) || O.Enabled(s, O.ParkRest)
    ensures s.task.Ending? ==> O.Enabled(s, O.End)
    ensures s.task.Retrying? ==> O.Enabled(s, O.Retry(refused)) || O.Enabled(s, O.FinishRetry)
  {
  }

  /** A parked packet can be taken up by a pass, a pass can always go on, and so can every thread. */
  lemma {:induction false} ParkedMove(s: B.State, full: bool)
    ensures s.parked != [] && s.pass.NoPass? ==>
              B.Enabled(s, B.Snapshot) && B.Do(s, B.Snapshot).pass == B.Pass(s.parked, 0, [], {})
    ensures s.pass.Pass? ==> B.Enabled(s, B.Retry(full)) || B.Enabled(s, B.WriteBack)
    ensures forall e: B.Entry :: e.owner in s.hands && s.hands[e.owner].Empty? ==> B.Enabled(s, B.Emit(e))
    ensures forall t :: t in s.hands && s.hands[t].Unparked? ==> B.Enabled(s, B.Push(t, full))
    ensures forall t :: t in s.hands && (s.hands[t].Behind? || s.hands[t].Refused?) ==> B.Enabled(s, B.Park(t))
  {
  }

  /** Some observer has the subscription and can go on, or it stands in line and any idle observer can take the first. */
  ghost predicate IsServed(s: E.State, id: E.SubId) {
    || (exists w :: w in s.observers && s.observers[w] == E.Draining(id) && E.Enabled(s, E.Next(w)))
    || (exists w :: w in s.observers && s.observers[w] == E.Handling(id) && E.Enabled(s, E.Return(w)))
    || (id in s.ready && forall w :: w in s.observers && s.observers[w].Idle? ==> E.Enabled(s, E.Pick(w)))
  }

  /**
   * In every run: a subscription with events queued is being served or stands in
   * line; a registered one can be offered events; and a Cancel that waits
   * returns as soon as its subscription is neither served nor in line.
   */
  lemma {:induction false} EventsMove(states: seq<E.State>, steps: seq<E.Step>, i: nat, id: E.SubId)
    requires E.IsRun(states, steps) && i < |states| && id in states[i].subs
    ensures states[i].subs[id].queue != [] ==> IsServed(states[i], id)
    ensures forall event :: states[i].subs[id].registered ==> E.Enabled(states[i], E.Offer(id, event))
    ensures forall t :: t in states[i].waiting && states[i].waiting[t] == id ==>
              IsServed(states[i], id) || E.Enabled(states[i], E.CancelReturns(t))
  {
    var s := states[i];
    E.RunSafe(states, steps, i);
    E.ScheduledOnce(states, steps, i, id);
    assert E.Known(s);
    if s.subs[id].scheduled {
      if id in s.ready {
        assert s.ready[0] in s.subs;
      } else {
        var w :| w in s.observers && E.On(s.observers[w], id);
        assert s.observers[w] == E.Draining(id) || s.observers[w] == E.Handling(id);
      }
    }
  }
}
