/**
 * The two halves of the AsyncRuntime together: the consumer takes the head of
 * a reorder buffer and delivers its result in one section, and ends the
 * request when the delivery is through.
 */
module AsyncPipeline {
  import O = AsyncOutputs
  import R = AsyncRequests

  /** results is a history: the outputs each delivered request came with. */
  datatype Pipe = Pipe(reqs: R.State, outs: O.Outs, results: map<R.Request, seq<O.Output>>)

  datatype Step =
    | Request(a: R.Step)                                 // a step of the request side alone
    | Output(b: O.Step)                                  // a step of the output side alone
    | Hand(k: R.Key, outputs: seq<O.Output>)             // DeliverReady: take the head, deliver its outputs
    | Close(r: R.Request)                                // FinishEntry: the delivery and the request end

  predicate Enabled(p: Pipe, a: Step) {
    match a
    case Request(a) => !a.Take? && !a.Finish? && R.Enabled(p.reqs, a)
    case Output(b) => !b.Deliver? && !b.End? && O.Enabled(p.outs, b)
    case Hand(k, outputs) =>
      && R.Enabled(p.reqs, R.Take(k)) && O.Enabled(p.outs, O.Deliver(k, outputs))
      && (p.reqs.inFlight[R.Head(p.reqs, k)].phase.Gap? ==> outputs == [])
    case Close(r) => R.Enabled(p.reqs, R.Finish(r)) && O.Enabled(p.outs, O.End)
  }

  function Do(p: Pipe, a: Step): Pipe
    requires Enabled(p, a)
  {
    match a
    case Request(a) => p.(reqs := R.Do(p.reqs, a))
    case Output(b) => p.(outs := O.Do(p.outs, b))
    case Hand(k, outputs) =>
      Pipe(R.Do(p.reqs, R.Take(k)), O.Do(p.outs, O.Deliver(k, outputs)),
           p.results[R.Head(p.reqs, k) := outputs])
    case Close(r) => p.(reqs := R.Do(p.reqs, R.Finish(r)), outs := O.Do(p.outs, O.End))
  }

  predicate Init(p: Pipe) {
    R.Init(p.reqs) && O.Init(p.outs) && p.results == map[]
  }

  /** The pushes of the listed requests, one request after the other. */
  function InTurn(rs: seq<R.Request>, results: map<R.Request, seq<O.Output>>): seq<O.Push> {
    if rs == [] then []
    else
      var r := rs[|rs| - 1];
      InTurn(rs[..|rs| - 1], results) + if r in results then O.Flatten(results[r]) else []
  }

  lemma {:induction false} InTurnMore(rs: seq<R.Request>, r: R.Request, results: map<R.Request, seq<O.Output>>)
    ensures InTurn(rs + [r], results) == InTurn(rs, results) + if r in results then O.Flatten(results[r]) else []
  {
    assert (rs + [r])[..|rs|] == rs;
  }

  lemma {:induction false} InTurnOthers(
    rs: seq<R.Request>, r: R.Request, outputs: seq<O.Output>, results: map<R.Request, seq<O.Output>>)
    requires r !in rs
    ensures InTurn(rs, results[r := outputs]) == InTurn(rs, results)
  {
    if rs != [] {
      InTurnOthers(rs[..|rs| - 1], r, outputs, results);
      assert rs[|rs| - 1] in rs;
    }
  }

  /** What a key owes its edges are the results of its departed requests, in that order. */
  ghost predicate Owes(p: Pipe, k: R.Key) {
    O.Get(p.outs.owed, k) == InTurn(R.Reqs(p.reqs.departed, k), p.results)
  }

  ghost predicate Safe(p: Pipe) {
    R.Safe(p.reqs) && O.Safe(p.outs) && p.results.Keys == p.reqs.delivered.Keys && forall k :: Owes(p, k)
  }

  lemma {:induction false} DroppedOwesNothing(p: Pipe, k: R.Key, q: R.Key)
    requires Safe(p) && R.Enabled(p.reqs, R.Prune(k))
    ensures Owes(Do(p, Request(R.Prune(k))), q)
  {
    var s := p.reqs;
    var r := R.Head(s, k);
    assert Owes(p, q) && R.Settled(s, k) && R.Placed(s);
    assert r in R.Reqs(s.order, k);
    assert r !in p.results.Keys;
    InTurnMore(R.Reqs(s.departed, k), r, p.results);
  }

  lemma {:induction false} HandOwes(p: Pipe, k: R.Key, outputs: seq<O.Output>, q: R.Key)
    requires Safe(p) && Enabled(p, Hand(k, outputs))
    ensures Owes(Do(p, Hand(k, outputs)), q)
  {
    var s := p.reqs;
    var r := R.Head(s, k);
    assert Owes(p, q) && R.Settled(s, q) && R.Placed(s);
    assert r in s.inFlight.Keys && r !in s.delivered.Keys && r !in s.dropped;
    InTurnOthers(R.Reqs(s.departed, q), r, outputs, p.results);
    InTurnMore(R.Reqs(s.departed, k), r, p.results[r := outputs]);
  }

  /** Nothing else touches what a key owes. */
  lemma {:induction false} OwesStep(p: Pipe, a: Step, q: R.Key)
    requires Safe(p) && Enabled(p, a)
    ensures Owes(Do(p, a), q)
  {
    match a
    case Hand(k, outputs) => HandOwes(p, k, outputs, q);
    case Request(a) =>
      if a.Prune? {
        DroppedOwesNothing(p, a.k, q);
      } else {
        assert Owes(p, q) && R.Do(p.reqs, a).departed == p.reqs.departed;
      }
    case Output(b) => assert Owes(p, q) && O.Do(p.outs, b).owed == p.outs.owed;
    case Close(r) => assert Owes(p, q);
  }

  lemma {:induction false} HalvesSafe(p: Pipe, a: Step)
    requires Safe(p) && Enabled(p, a)
    ensures R.Safe(Do(p, a).reqs) && O.Safe(Do(p, a).outs)
  {
    match a
    case Request(a) => R.StepSafe(p.reqs, a);
    case Output(b) => O.StepSafe(p.outs, b);
    case Hand(k, outputs) =>
      R.StepSafe(p.reqs, R.Take(k));
      O.StepSafe(p.outs, O.Deliver(k, outputs));
    case Close(r) =>
      R.StepSafe(p.reqs, R.Finish(r));
      O.StepSafe(p.outs, O.End);
  }

  lemma {:induction false} SameDelivered(s: R.State, a: R.Step)
    requires R.Enabled(s, a) && !a.Take?
    ensures R.Do(s, a).delivered == s.delivered
  {
  }

  lemma {:induction false} SameRequests(p: Pipe, a: Step)
    requires p.results.Keys == p.reqs.delivered.Keys && Enabled(p, a)
    ensures Do(p, a).results.Keys == Do(p, a).reqs.delivered.Keys
  {
    match a
    case Request(a) => SameDelivered(p.reqs, a);
    case Hand(k, outputs) =>
      var r := R.Head(p.reqs, k);
      assert R.Do(p.reqs, R.Take(k)).delivered.Keys == p.reqs.delivered.Keys + {r};
      assert Do(p, a).results.Keys == p.results.Keys + {r};
    case Close(r) => SameDelivered(p.reqs, R.Finish(r));
    case Output(b) => assert Do(p, a).reqs == p.reqs;
  }

  lemma {:induction false} StepSafe(p: Pipe, a: Step)
    requires Safe(p) && Enabled(p, a)
    ensures Safe(Do(p, a))
  {
    HalvesSafe(p, a);
    SameRequests(p, a);
    forall k ensures Owes(Do(p, a), k) {
      OwesStep(p, a, k);
    }
  }

  ghost predicate IsRun(pipes: seq<Pipe>, steps: seq<Step>) {
    && |pipes| == |steps| + 1
    && Init(pipes[0])
    && forall i {:trigger steps[i]} :: 0 <= i < |steps| ==>
         Enabled(pipes[i], steps[i]) && pipes[i + 1] == Do(pipes[i], steps[i])
  }

  lemma {:induction false} InitSafe(p: Pipe)
    requires Init(p)
    ensures Safe(p)
  {
    R.RunSafe([p.reqs], [], 0);
    O.RunSafe([p.outs], [], 0);
  }

  lemma {:induction false} RunSafe(pipes: seq<Pipe>, steps: seq<Step>, i: nat)
    requires IsRun(pipes, steps) && i < |pipes|
    ensures Safe(pipes[i])
  {
    if i == 0 {
      InitSafe(pipes[0]);
    } else {
      RunSafe(pipes, steps, i - 1);
      StepSafe(pipes[i - 1], steps[i - 1]);
    }
  }

  /** The requests a run has submitted for k, in order. */
  function Submits(steps: seq<Step>, k: R.Key): seq<R.Request> {
    if steps == [] then []
    else
      var a := steps[|steps| - 1];
      Submits(steps[..|steps| - 1], k) + if a.Request? && a.a.Submit? && a.a.k == k then [a.a.r] else []
  }

  lemma {:induction false} SubmittedStep(p: Pipe, a: Step, k: R.Key)
    requires Enabled(p, a)
    ensures R.Reqs(Do(p, a).reqs.submitted, k)
         == R.Reqs(p.reqs.submitted, k) + if a.Request? && a.a.Submit? && a.a.k == k then [a.a.r] else []
  {
    match a
    case Request(b) => R.HistoryStep(p.reqs, b, k);
    case Output(_) => assert Do(p, a).reqs == p.reqs;
    case Hand(h, outputs) => R.HistoryStep(p.reqs, R.Take(h), k);
    case Close(r) => R.HistoryStep(p.reqs, R.Finish(r), k);
  }

  lemma {:induction false} SubmittedIsSubmits(pipes: seq<Pipe>, steps: seq<Step>, i: nat, k: R.Key)
    requires IsRun(pipes, steps) && i < |pipes|
    ensures R.Reqs(pipes[i].reqs.submitted, k) == Submits(steps[..i], k)
  {
    if i > 0 {
      SubmittedIsSubmits(pipes, steps, i - 1, k);
      assert steps[..i][..i - 1] == steps[..i - 1];
      SubmittedStep(pipes[i - 1], steps[i - 1], k);
    }
  }

  /** Step a hands over request r, the head of its buffer, with these outputs. */
  predicate Hands(p: Pipe, a: Step, r: R.Request, outputs: seq<O.Output>) {
    a.Hand? && R.Reqs(p.reqs.order, a.k) != [] && R.Head(p.reqs, a.k) == r && a.outputs == outputs
  }

  lemma {:induction false} ResultStep(p: Pipe, a: Step, r: R.Request, outputs: seq<O.Output>)
    requires Safe(p) && Enabled(p, a)
    ensures r in Do(p, a).results && Do(p, a).results[r] == outputs <==>
            (r in p.results && p.results[r] == outputs) || Hands(p, a, r, outputs)
  {
    if a.Hand? {
      var h := R.Head(p.reqs, a.k);
      assert R.Placed(p.reqs);
      assert h in p.reqs.inFlight.Keys && h !in p.reqs.delivered.Keys;
      assert h !in p.results.Keys;
    }
  }

  ghost predicate HandedBefore(pipes: seq<Pipe>, steps: seq<Step>, i: nat, r: R.Request, outputs: seq<O.Output>)
    requires i <= |steps| <= |pipes|
  {
    exists j :: 0 <= j < i && Hands(pipes[j], steps[j], r, outputs)
  }

  lemma {:induction false} HandedMore(pipes: seq<Pipe>, steps: seq<Step>, i: nat, r: R.Request, outputs: seq<O.Output>)
    requires i < |steps| <= |pipes|
    ensures HandedBefore(pipes, steps, i + 1, r, outputs) <==>
            HandedBefore(pipes, steps, i, r, outputs) || Hands(pipes[i], steps[i], r, outputs)
  {
  }

  /** The result of a request is what one step of the run handed over for it. */
  lemma {:induction false} ResultIsHanded(pipes: seq<Pipe>, steps: seq<Step>, i: nat, r: R.Request, outputs: seq<O.Output>)
    requires IsRun(pipes, steps) && i < |pipes|
    ensures r in pipes[i].results && pipes[i].results[r] == outputs <==>
            HandedBefore(pipes, steps, i, r, outputs)
  {
    if i > 0 {
      ResultIsHanded(pipes, steps, i - 1, r, outputs);
      RunSafe(pipes, steps, i - 1);
      ResultStep(pipes[i - 1], steps[i - 1], r, outputs);
      HandedMore(pipes, steps, i - 1, r, outputs);
    }
  }

  lemma {:induction false} InTurnUndelivered(rs: seq<R.Request>, more: seq<R.Request>, results: map<R.Request, seq<O.Output>>)
    requires forall r :: r in more ==> r !in results
    ensures InTurn(rs + more, results) == InTurn(rs, results)
  {
    if more == [] {
      assert rs + more == rs;
    } else {
      var front, last := more[..|more| - 1], more[|more| - 1];
      assert rs + more == (rs + front) + [last];
      InTurnUndelivered(rs, front, results);
      InTurnMore(rs + front, last, results);
    }
  }

  /**
   * Whatever order requests complete in, and however often edges are full: for
   * every key that was not lost, an edge has received the outputs handed over
   * for its requests, in the order the requests were submitted, each once and
   * whole, up to the pushes still waiting.
   */
  lemma {:induction false} EdgeOrderIsSubmitOrder(pipes: seq<Pipe>, steps: seq<Step>, i: nat, k: R.Key, edge: O.Edge)
    requires IsRun(pipes, steps) && i < |pipes| && k !in pipes[i].outs.lost
    ensures O.For(O.Get(pipes[i].outs.taken, k), edge) + O.For(O.Waiting(pipes[i].outs, k), edge)
         == O.For(InTurn(Submits(steps[..i], k), pipes[i].results), edge)
    ensures pipes[i].results.Keys == pipes[i].reqs.delivered.Keys
  {
    RunSafe(pipes, steps, i);
    SubmittedIsSubmits(pipes, steps, i, k);
    var p := pipes[i];
    assert Owes(p, k) && O.KeptFor(p.outs, k, edge) && R.Queued(p.reqs, k);
    WaitingUndelivered(p, k);
    InTurnUndelivered(R.Reqs(p.reqs.departed, k), R.Reqs(p.reqs.order, k), p.results);
  }

  lemma {:induction false} WaitingUndelivered(p: Pipe, k: R.Key)
    requires Safe(p)
    ensures forall r :: r in R.Reqs(p.reqs.order, k) ==> r !in p.results
  {
    assert R.Settled(p.reqs, k) && R.Placed(p.reqs);
    forall r | r in R.Reqs(p.reqs.order, k) ensures r !in p.results {
      assert r !in p.results.Keys;
    }
  }
}
