/**
 * The request side of the AsyncRuntime: submission, completion, deadlines,
 * in-order departure from the reorder buffers, and the pending count of each
 * node. Every section under the state mutex is one step, and so is each
 * BeginAsync and EndAsync.
 */
module AsyncRequests {
  import O = AsyncOutputs

  type Key = O.Key
  type Node = O.Node
  type Request = O.Request
  type Session = nat
  type Result = int

  /** A request in flight: not done, or done with a result, or done as a gap. */
  datatype Phase = Open(submitted: bool) | Answered(result: Result) | Gap

  /** What a request is submitted under besides its key, and what its completion has to repeat. */
  datatype Stamp = Stamp(session: Session, parameter: nat, packet: nat)

  datatype Entry = Entry(key: Key, stamp: Stamp, phase: Phase)

  /**
   * held is the request the consumer has taken and not yet finished; detaching
   * are those DetachSession dropped and has not yet finished. The remaining
   * fields are histories: requests submitted and departed per key, the key of
   * every request, and what became of it: the outcome a delivered one was taken
   * with, dropped, ended.
   */
  datatype State = State(
    inFlight: map<Request, Entry>, order: map<Key, seq<Request>>,
    held: set<Request>, detaching: set<Request>,
    pending: map<Node, int>, beginning: map<Node, int>,
    submitted: map<Key, seq<Request>>, departed: map<Key, seq<Request>>, keyOf: map<Request, Key>,
    delivered: map<Request, Phase>, dropped: set<Request>, ended: set<Request>)

  datatype Step =
    | Begin(n: Node)                               // BeginAsync on the executor thread
    | Submit(r: Request, k: Key, stamp: Stamp)
    | Flush(r: Request)                            // handed to the backend
    | Complete(r: Request, version: nat, stamp: Stamp, result: Result)
    | Expire(k: Key)                               // deadline of the head of a buffer
    | Prune(k: Key)                                // a head that left with its session
    | Take(k: Key)                                 // the consumer takes a finished head
    | Finish(r: Request)                           // FinishEntry: EndAsync
    | Detach(session: Session)
    | FinishDropped(r: Request)                    // EndAsync for a dropped request

  function Reqs(m: map<Key, seq<Request>>, k: Key): seq<Request> {
    if k in m then m[k] else []
  }

  function Num(m: map<Node, int>, n: Node): int {
    if n in m then m[n] else 0
  }

  function Head(s: State, k: Key): Request
    requires Reqs(s.order, k) != []
  {
    Reqs(s.order, k)[0]
  }

  predicate HeadInFlight(s: State, k: Key) {
    Reqs(s.order, k) != [] && Head(s, k) in s.inFlight
  }

  function OfSession(s: State, session: Session): set<Request> {
    set r | r in s.inFlight && s.inFlight[r].stamp.session == session
  }

  /** A completion under another session or version is an orphan. */
  predicate Matches(e: Entry, version: nat, stamp: Stamp) {
    version == e.key.version && stamp == e.stamp
  }

  predicate Enabled(s: State, a: Step) {
    match a
    case Begin(_) => true
    case Submit(r, k, _) => r !in s.keyOf && Num(s.beginning, k.node) > 0
    case Flush(r) => r in s.inFlight && s.inFlight[r].phase.Open?
    case Complete(_, _, _, _) => true
    case Expire(k) => HeadInFlight(s, k) && s.inFlight[Head(s, k)].phase == Open(true)
    case Prune(k) => Reqs(s.order, k) != [] && Head(s, k) !in s.inFlight
    case Take(k) => s.held == {} && HeadInFlight(s, k) && !s.inFlight[Head(s, k)].phase.Open?
    case Finish(r) => r in s.held && r in s.keyOf
    case Detach(_) => true
    case FinishDropped(r) => r in s.detaching && r in s.keyOf
  }

  function SetPhase(s: State, r: Request, phase: Phase): State
    requires r in s.inFlight
  {
    s.(inFlight := s.inFlight[r := s.inFlight[r].(phase := phase)])
  }

  /** The head of a buffer leaves it. */
  function Pop(s: State, k: Key): State
    requires Reqs(s.order, k) != []
  {
    s.(order := s.order[k := Reqs(s.order, k)[1..]],
       departed := s.departed[k := Reqs(s.departed, k) + [Head(s, k)]])
  }

  function EndAsync(s: State, r: Request): State
    requires r in s.keyOf
  {
    var n := s.keyOf[r].node;
    s.(pending := s.pending[n := Num(s.pending, n) - 1], ended := s.ended + {r})
  }

  function Do(s: State, a: Step): State
    requires Enabled(s, a)
  {
    match a
    case Begin(n) =>
      s.(pending := s.pending[n := Num(s.pending, n) + 1], beginning := s.beginning[n := Num(s.beginning, n) + 1])
    case Submit(r, k, stamp) =>
      s.(inFlight := s.inFlight[r := Entry(k, stamp, Open(false))],
         order := s.order[k := Reqs(s.order, k) + [r]],
         submitted := s.submitted[k := Reqs(s.submitted, k) + [r]],
         keyOf := s.keyOf[r := k],
         beginning := s.beginning[k.node := Num(s.beginning, k.node) - 1])
    case Flush(r) => SetPhase(s, r, Open(true))
    case Complete(r, version, stamp, result) =>
      if r in s.inFlight && s.inFlight[r].phase.Open? && Matches(s.inFlight[r], version, stamp)
      then SetPhase(s, r, Answered(result)) else s
    case Expire(k) => SetPhase(s, Head(s, k), Gap)
    case Prune(k) => Pop(s, k)
    case Take(k) =>
      var r := Head(s, k);
      Pop(s, k).(inFlight := s.inFlight - {r}, held := s.held + {r},
                   delivered := s.delivered[r := s.inFlight[r].phase])
    case Finish(r) => EndAsync(s, r).(held := s.held - {r})
    case Detach(session) =>
      var gone := OfSession(s, session);
      s.(inFlight := s.inFlight - gone, detaching := s.detaching + gone, dropped := s.dropped + gone)
    case FinishDropped(r) => EndAsync(s, r).(detaching := s.detaching - {r})
  }

  predicate Init(s: State) {
    s == State(map[], map[], {}, {}, map[], map[], map[], map[], map[], map[], {}, {})
  }

  // -------------------------------------------------------------------------
  // Where every request is

  /** A request is in flight, taken, dropped but unfinished, or ended: one of these. */
  ghost predicate Placed(s: State) {
    && s.keyOf.Keys == s.inFlight.Keys + s.held + s.detaching + s.ended
    && s.inFlight.Keys !! s.held && s.inFlight.Keys !! s.detaching && s.inFlight.Keys !! s.ended
    && s.held !! s.detaching && s.held !! s.ended && s.detaching !! s.ended
    && s.delivered.Keys !! s.dropped && s.delivered.Keys + s.dropped == s.held + s.detaching + s.ended
    && s.held <= s.delivered.Keys && s.detaching <= s.dropped
  }

  /** The step calls EndAsync for r. */
  predicate Ends(a: Step, r: Request) {
    a == Finish(r) || a == FinishDropped(r)
  }

  lemma {:induction false} PlacedStep(s: State, a: Step)
    requires Placed(s) && KeysOk(s) && Enabled(s, a)
    ensures Placed(Do(s, a))
  {
    if a.Take? {
      PlacedTake(s, a.k);
    } else if a.Detach? {
      PlacedDetach(s, a.session);
    } else if a.Finish? || a.FinishDropped? {
      PlacedEnd(s, a, a.r);
    }
  }

  lemma {:induction false} PlacedEnd(s: State, a: Step, r: Request)
    requires Placed(s) && Enabled(s, a) && Ends(a, r)
    ensures Placed(Do(s, a))
  {
  }

  lemma {:induction false} PlacedTake(s: State, k: Key)
    requires Placed(s) && Enabled(s, Take(k))
    ensures Placed(Do(s, Take(k)))
  {
    var r, s' := Head(s, k), Do(s, Take(k));
    assert s'.inFlight.Keys == s.inFlight.Keys - {r} && s'.delivered.Keys == s.delivered.Keys + {r};
  }

  lemma {:induction false} PlacedDetach(s: State, session: Session)
    requires Placed(s)
    ensures Placed(Do(s, Detach(session)))
  {
    var gone, s' := OfSession(s, session), Do(s, Detach(session));
    assert gone <= s.inFlight.Keys && s'.inFlight.Keys == s.inFlight.Keys - gone;
  }

  // -------------------------------------------------------------------------
  // Buffers are queues

  /** A key's requests are those departed and then those queued, in submit order. */
  ghost predicate Queued(s: State, k: Key) {
    Reqs(s.submitted, k) == Reqs(s.departed, k) + Reqs(s.order, k)
  }

  lemma {:induction false} QueuedStep(s: State, a: Step, k: Key)
    requires Queued(s, k) && Enabled(s, a)
    ensures Queued(Do(s, a), k)
  {
  }

  /** Every request is submitted once, under its own key. */
  ghost predicate KeysOk(s: State) {
    && (forall r :: r in s.inFlight ==> r in s.keyOf && s.inFlight[r].key == s.keyOf[r])
    && (forall k, i :: 0 <= i < |Reqs(s.submitted, k)| ==>
          Reqs(s.submitted, k)[i] in s.keyOf && s.keyOf[Reqs(s.submitted, k)[i]] == k)
    && (forall k, i, j :: 0 <= i < j < |Reqs(s.submitted, k)| ==>
          Reqs(s.submitted, k)[i] != Reqs(s.submitted, k)[j])
  }

  lemma {:induction false} KeysOkSubmit(s: State, r: Request, k: Key, stamp: Stamp)
    requires KeysOk(s) && Enabled(s, Submit(r, k, stamp))
    ensures KeysOk(Do(s, Submit(r, k, stamp)))
  {
    var s' := Do(s, Submit(r, k, stamp));
    forall q, i | 0 <= i < |Reqs(s'.submitted, q)|
      ensures Reqs(s'.submitted, q)[i] in s'.keyOf && s'.keyOf[Reqs(s'.submitted, q)[i]] == q
    {
      if i < |Reqs(s.submitted, q)| {
        assert Reqs(s'.submitted, q)[i] == Reqs(s.submitted, q)[i];
      }
    }
    forall q, i, j | 0 <= i < j < |Reqs(s'.submitted, q)|
      ensures Reqs(s'.submitted, q)[i] != Reqs(s'.submitted, q)[j]
    {
      assert Reqs(s'.submitted, q)[i] == Reqs(s.submitted, q)[i];
    }
  }

  lemma {:induction false} KeysOkStep(s: State, a: Step)
    requires KeysOk(s) && Enabled(s, a)
    ensures KeysOk(Do(s, a))
  {
    if a.Submit? {
      KeysOkSubmit(s, a.r, a.k, a.stamp);
    } else {
      assert Do(s, a).submitted == s.submitted && Do(s, a).keyOf == s.keyOf;
    }
  }

  /** A departed request was delivered or dropped; a queued one was not delivered. */
  ghost predicate Settled(s: State, k: Key) {
    && (forall r :: r in Reqs(s.departed, k) ==> r in s.delivered || r in s.dropped)
    && (forall r :: r in Reqs(s.order, k) ==> r in s.inFlight || r in s.dropped)
  }

  lemma {:induction false} QueuedElsewhere(s: State, q: Key, i: nat)
    requires KeysOk(s) && Queued(s, q) && i < |Reqs(s.order, q)|
    ensures Reqs(s.order, q)[i] in s.keyOf && s.keyOf[Reqs(s.order, q)[i]] == q
    ensures i > 0 ==> Reqs(s.order, q)[i] != Reqs(s.order, q)[0]
  {
    var d := |Reqs(s.departed, q)|;
    assert Reqs(s.submitted, q)[d + i] == Reqs(s.order, q)[i];
    assert Reqs(s.submitted, q)[d] == Reqs(s.order, q)[0];
  }

  /** Once popped, the head of a buffer is in no buffer. */
  lemma {:induction false} HeadLeaves(s: State, k: Key, q: Key)
    requires KeysOk(s) && Queued(s, k) && Queued(s, q) && Reqs(s.order, k) != []
    ensures Head(s, k) !in Reqs(Pop(s, k).order, q)
  {
    var r, rest := Head(s, k), Reqs(Pop(s, k).order, q);
    QueuedElsewhere(s, k, 0);
    forall i | 0 <= i < |rest| ensures rest[i] != r {
      QueuedElsewhere(s, q, if q == k then i + 1 else i);
    }
  }

  lemma {:induction false} SettledPop(s: State, k: Key, q: Key)
    requires Settled(s, q) && Reqs(s.order, k) != []
    requires q == k ==> Head(s, k) in s.delivered || Head(s, k) in s.dropped
    ensures Settled(Pop(s, k), q)
  {
    assert forall x :: x in Reqs(Pop(s, k).order, q) ==> x in Reqs(s.order, q);
  }

  lemma {:induction false} SettledTake(s: State, k: Key, q: Key)
    requires Placed(s) && KeysOk(s) && Queued(s, k) && Queued(s, q) && Settled(s, q) && Enabled(s, Take(k))
    ensures Settled(Do(s, Take(k)), q)
  {
    var r := Head(s, k);
    HeadLeaves(s, k, q);
    SettledPop(s.(delivered := s.delivered[r := s.inFlight[r].phase]), k, q);
  }

  lemma {:induction false} SettledStep(s: State, a: Step, k: Key)
    requires Placed(s) && KeysOk(s) && Settled(s, k) && Enabled(s, a)
    requires forall q :: Queued(s, q) && Settled(s, q)
    ensures Settled(Do(s, a), k)
  {
    match a
    case Take(q) => SettledTake(s, q, k);
    case Prune(q) =>
      assert Settled(s, q) && Head(s, q) in Reqs(s.order, q);
      SettledPop(s, q, k);
    case _ =>
  }

  // -------------------------------------------------------------------------
  // The pending count

  /** The node's requests that were submitted and have not called EndAsync. */
  ghost function Unfinished(s: State, n: Node): set<Request> {
    OfNode(s.keyOf, s.ended, n)
  }

  ghost function OfNode(keyOf: map<Request, Key>, ended: set<Request>, n: Node): set<Request> {
    set r | r in keyOf && r !in ended && keyOf[r].node == n
  }

  ghost predicate Counted(s: State, n: Node) {
    Num(s.pending, n) == Num(s.beginning, n) + |Unfinished(s, n)| && 0 <= Num(s.beginning, n)
  }

  lemma {:induction false} CountedSubmit(s: State, r: Request, k: Key, stamp: Stamp, n: Node)
    requires Counted(s, n) && Placed(s) && Enabled(s, Submit(r, k, stamp))
    ensures Counted(Do(s, Submit(r, k, stamp)), n)
  {
    assert r !in s.ended && r !in s.keyOf.Keys;
    UnfinishedMore(s.keyOf, s.ended, r, k, n);
  }

  lemma {:induction false} UnfinishedMore(keyOf: map<Request, Key>, ended: set<Request>, r: Request, k: Key, n: Node)
    requires r !in keyOf && r !in ended
    ensures |OfNode(keyOf[r := k], ended, n)| == |OfNode(keyOf, ended, n)| + if k.node == n then 1 else 0
  {
    assert OfNode(keyOf[r := k], ended, n) == OfNode(keyOf, ended, n) + if k.node == n then {r} else {};
  }

  lemma {:induction false} CountedEnd(s: State, r: Request, n: Node)
    requires Counted(s, n) && r in s.keyOf && r !in s.ended
    ensures Counted(EndAsync(s, r), n)
  {
    assert Unfinished(EndAsync(s, r), n) == Unfinished(s, n) - {r};
    assert s.keyOf[r].node == n <==> r in Unfinished(s, n);
  }

  lemma {:induction false} CountedStep(s: State, a: Step, n: Node)
    requires Counted(s, n) && Placed(s) && Enabled(s, a)
    ensures Counted(Do(s, a), n)
  {
    match a
    case Submit(r, k, stamp) => CountedSubmit(s, r, k, stamp, n);
    case Finish(r) => CountedEnd(s, r, n);
    case FinishDropped(r) => CountedEnd(s, r, n);
    case _ =>
  }

  // -------------------------------------------------------------------------
  // Runs

  ghost predicate Safe(s: State) {
    && Placed(s) && KeysOk(s)
    && (forall k :: Queued(s, k) && Settled(s, k))
    && (forall n :: Counted(s, n))
  }

  lemma {:induction false} StepSafe(s: State, a: Step)
    requires Safe(s) && Enabled(s, a)
    ensures Safe(Do(s, a))
  {
    PlacedStep(s, a);
    KeysOkStep(s, a);
    forall k ensures Queued(Do(s, a), k) && Settled(Do(s, a), k) {
      QueuedStep(s, a, k);
      SettledStep(s, a, k);
    }
    forall n ensures Counted(Do(s, a), n) {
      CountedStep(s, a, n);
    }
  }

  ghost predicate IsRun(states: seq<State>, steps: seq<Step>) {
    && |states| == |steps| + 1
    && Init(states[0])
    && forall i {:trigger steps[i]} :: 0 <= i < |steps| ==>
         Enabled(states[i], steps[i]) && states[i + 1] == Do(states[i], steps[i])
  }

  lemma {:induction false} RunSafe(states: seq<State>, steps: seq<Step>, i: nat)
    requires IsRun(states, steps) && i < |states|
    ensures Safe(states[i])
  {
    if i == 0 {
      assert forall n :: Unfinished(states[0], n) == {};
    } else {
      RunSafe(states, steps, i - 1);
      StepSafe(states[i - 1], steps[i - 1]);
    }
  }

  /** The requests submitted under a key, and those that left its buffer, read off the steps. */
  function Submits(steps: seq<Step>, k: Key): seq<Request> {
    if steps == [] then []
    else
      var a := steps[|steps| - 1];
      Submits(steps[..|steps| - 1], k) + if a.Submit? && a.k == k then [a.r] else []
  }

  function Departures(states: seq<State>, steps: seq<Step>, k: Key, n: nat): seq<Request>
    requires n <= |steps| && n <= |states|
  {
    if n == 0 then []
    else
      var s, a := states[n - 1], steps[n - 1];
      Departures(states, steps, k, n - 1) +
        if (a.Take? || a.Prune?) && a.k == k && Reqs(s.order, k) != [] then [Reqs(s.order, k)[0]] else []
  }

  lemma {:induction false} HistoryStep(s: State, a: Step, k: Key)
    requires Enabled(s, a)
    ensures Reqs(Do(s, a).submitted, k) == Reqs(s.submitted, k) + if a.Submit? && a.k == k then [a.r] else []
    ensures Reqs(Do(s, a).departed, k) == Reqs(s.departed, k) +
              if (a.Take? || a.Prune?) && a.k == k && Reqs(s.order, k) != [] then [Reqs(s.order, k)[0]] else []
  {
  }

  lemma {:induction false} Histories(states: seq<State>, steps: seq<Step>, i: nat, k: Key)
    requires IsRun(states, steps) && i < |states|
    ensures Reqs(states[i].submitted, k) == Submits(steps[..i], k)
    ensures Reqs(states[i].departed, k) == Departures(states, steps, k, i)
  {
    if i > 0 {
      Histories(states, steps, i - 1, k);
      HistoryStep(states[i - 1], steps[i - 1], k);
      assert steps[..i][..i - 1] == steps[..i - 1];
    }
  }

  /**
   * Whatever the completion order, the requests of a key depart in the order
   * they were submitted, each once, and each departs as delivered or dropped.
   */
  lemma {:induction false} DepartInSubmitOrder(states: seq<State>, steps: seq<Step>, i: nat, k: Key)
    requires IsRun(states, steps) && i < |states|
    ensures Reqs(states[i].departed, k) <= Reqs(states[i].submitted, k)
    ensures Departures(states, steps, k, i) <= Submits(steps[..i], k)
    ensures Submits(steps[..i], k) == Departures(states, steps, k, i) + Reqs(states[i].order, k)
    ensures forall x, y :: 0 <= x < y < |Reqs(states[i].submitted, k)| ==>
              Reqs(states[i].submitted, k)[x] != Reqs(states[i].submitted, k)[y]
    ensures forall r :: r in Reqs(states[i].departed, k) ==>
              (r in states[i].delivered) != (r in states[i].dropped) && r !in states[i].inFlight
  {
    RunSafe(states, steps, i);
    var s := states[i];
    Histories(states, steps, i, k);
    assert Queued(s, k) && Settled(s, k);
  }

  /**
   * The moment a request is taken it is the oldest of its key still in flight,
   * and it is taken with the outcome it has.
   */
  lemma {:induction false} TakesTheOldest(states: seq<State>, steps: seq<Step>, i: nat, k: Key)
    requires IsRun(states, steps) && i < |steps| && steps[i] == Take(k)
    ensures Head(states[i], k) in states[i].inFlight && !states[i].inFlight[Head(states[i], k)].phase.Open?
    ensures forall r :: r in Reqs(states[i].departed, k) ==> r !in states[i].inFlight
    ensures Reqs(states[i + 1].departed, k) == Reqs(states[i].departed, k) + [Head(states[i], k)]
    ensures Head(states[i], k) in states[i + 1].delivered
         && states[i + 1].delivered[Head(states[i], k)] == states[i].inFlight[Head(states[i], k)].phase
  {
    DepartInSubmitOrder(states, steps, i, k);
  }

  // -------------------------------------------------------------------------
  // The outcome of a request

  /** The step records an outcome for r: the first completion, or the deadline. */
  predicate Decides(s: State, a: Step, r: Request) {
    r in s.inFlight && s.inFlight[r].phase.Open?
    && (|| (a.Complete? && a.r == r && a.version == s.inFlight[r].key.version && a.stamp == s.inFlight[r].stamp)
        || (a.Expire? && Reqs(s.order, a.k) != [] && Head(s, a.k) == r))
  }

  /** What such a step records. */
  function Verdict(a: Step): Phase {
    if a.Complete? then Answered(a.result) else Gap
  }

  /** r has the outcome, in flight or as it was taken. */
  predicate HasOutcome(s: State, r: Request, outcome: Phase) {
    if r in s.inFlight then s.inFlight[r].phase == outcome && !outcome.Open?
    else r in s.delivered && s.delivered[r] == outcome
  }

  /** Not submitted, or still waiting for an outcome. */
  predicate Undecided(s: State, r: Request) {
    r !in s.keyOf || (r in s.inFlight && s.inFlight[r].phase.Open?)
  }

  /** A decision on r gives it its outcome. */
  lemma {:induction false} DecidesStep(s: State, a: Step, r: Request)
    requires Enabled(s, a) && Decides(s, a, r)
    ensures HasOutcome(Do(s, a), r, Verdict(a))
  {
  }

  /** Nothing makes a request undecided again. */
  lemma {:induction false} UndecidedStep(s: State, a: Step, r: Request)
    requires Placed(s) && KeysOk(s) && Enabled(s, a) && Undecided(Do(s, a), r)
    ensures Undecided(s, r)
  {
    if r in s.keyOf {
      assert r in s.keyOf.Keys;
      assert !(a.Submit? && a.r == r);
      if a.Take? || a.Detach? {
        assert r in Do(s, a).inFlight ==> r in s.inFlight && Do(s, a).inFlight[r] == s.inFlight[r];
      }
    }
  }

  lemma {:induction false} DecisionStep(s: State, a: Step, r: Request)
    requires Placed(s) && KeysOk(s) && Enabled(s, a)
    ensures Undecided(Do(s, a), r) ==> Undecided(s, r) && !Decides(s, a, r)
    ensures Decides(s, a, r) ==> HasOutcome(Do(s, a), r, Verdict(a))
  {
    if Decides(s, a, r) {
      DecidesStep(s, a, r);
      assert r in Do(s, a).inFlight && r in Do(s, a).keyOf;
    } else if Undecided(Do(s, a), r) {
      UndecidedStep(s, a, r);
    }
  }

  /** Without a decision on r a step gives it no outcome. */
  lemma {:induction false} OutcomeStep(s: State, a: Step, r: Request, outcome: Phase)
    requires Placed(s) && Enabled(s, a) && !Decides(s, a, r)
    ensures HasOutcome(Do(s, a), r, outcome) ==> HasOutcome(s, r, outcome)
  {
    if a.Detach? {
      assert r in s.inFlight.Keys ==> r !in s.delivered.Keys;
    } else if a.Take? {
      assert r != Head(s, a.k) ==> (r in Do(s, a).inFlight <==> r in s.inFlight);
    }
  }

  predicate Final(s: State, r: Request, outcome: Phase) {
    HasOutcome(s, r, outcome) || r in s.dropped
  }

  /** No step takes an outcome back, and none decides again. */
  lemma {:induction false} FinalStep(s: State, a: Step, r: Request, outcome: Phase)
    requires Placed(s) && Enabled(s, a) && Final(s, r, outcome)
    ensures !Decides(s, a, r) && Final(Do(s, a), r, outcome)
    ensures a.Complete? && a.r == r ==> Do(s, a) == s
  {
    assert r in s.inFlight ==> r in s.inFlight.Keys;
    assert r in s.delivered || r in s.dropped ==> r in s.keyOf.Keys;
  }

  predicate DecidedAt(states: seq<State>, steps: seq<Step>, i: nat, r: Request) {
    i < |states| && i < |steps| && Decides(states[i], steps[i], r)
  }

  lemma {:induction false} UndecidedSoFar(states: seq<State>, steps: seq<Step>, j: nat, r: Request)
    requires IsRun(states, steps) && j < |states| && Undecided(states[j], r)
    ensures forall i :: 0 <= i < j ==> !DecidedAt(states, steps, i, r)
  {
    if j > 0 {
      RunSafe(states, steps, j - 1);
      DecisionStep(states[j - 1], steps[j - 1], r);
      UndecidedSoFar(states, steps, j - 1, r);
    }
  }

  lemma {:induction false} LastOutcome(states: seq<State>, steps: seq<Step>, j: nat, r: Request, outcome: Phase)
    requires IsRun(states, steps) && 0 < j < |states| && HasOutcome(states[j], r, outcome)
    ensures if DecidedAt(states, steps, j - 1, r) then outcome == Verdict(steps[j - 1]) && Undecided(states[j - 1], r)
            else HasOutcome(states[j - 1], r, outcome)
  {
    RunSafe(states, steps, j - 1);
    if DecidedAt(states, steps, j - 1, r) {
      DecisionStep(states[j - 1], steps[j - 1], r);
    } else {
      OutcomeStep(states[j - 1], steps[j - 1], r, outcome);
    }
  }

  ghost predicate WasFlushed(steps: seq<Step>, n: nat, r: Request) {
    exists j :: 0 <= j < n && j < |steps| && steps[j] == Flush(r)
  }

  /** A request counts as handed to the backend only once it was. */
  lemma {:induction false} FlushedBefore(states: seq<State>, steps: seq<Step>, i: nat, r: Request)
    requires IsRun(states, steps) && i < |states| && r in states[i].inFlight && states[i].inFlight[r].phase == Open(true)
    ensures WasFlushed(steps, i, r)
  {
    if i > 0 {
      FlushStep(states[i - 1], steps[i - 1], r);
      if steps[i - 1] != Flush(r) {
        FlushedBefore(states, steps, i - 1, r);
      }
    }
  }

  lemma {:induction false} FlushStep(s: State, a: Step, r: Request)
    requires Enabled(s, a) && r in Do(s, a).inFlight && Do(s, a).inFlight[r].phase == Open(true)
    ensures a == Flush(r) || (r in s.inFlight && s.inFlight[r].phase == Open(true))
  {
    match a
    case Take(_) => assert Do(s, a).inFlight[r] == s.inFlight[r];
    case Detach(_) => assert Do(s, a).inFlight[r] == s.inFlight[r];
    case _ =>
  }

  /**
   * The outcome a request has, in flight or as it was delivered, is the one
   * its only decision recorded: the first completion that repeats the stamp it
   * was submitted with, or the deadline once it was handed to the backend,
   * whichever came first. Nothing that came later counted.
   */
  lemma {:induction false} OutcomeIsFirst(states: seq<State>, steps: seq<Step>, j: nat, r: Request, outcome: Phase)
    returns (i: nat)
    requires IsRun(states, steps) && j < |states| && HasOutcome(states[j], r, outcome)
    ensures i < j && DecidedAt(states, steps, i, r) && outcome == Verdict(steps[i])
    ensures forall l :: 0 <= l < j && DecidedAt(states, steps, l, r) ==> l == i
    ensures steps[i].Complete? ==> exists k :: SubmittedWith(steps, i, r, k, steps[i].stamp) && steps[i].version == k.version
    ensures steps[i].Expire? ==> WasFlushed(steps, i, r)
  {
    if j == 0 {
      assert false;
    } else {
      LastOutcome(states, steps, j, r, outcome);
      if DecidedAt(states, steps, j - 1, r) {
        UndecidedSoFar(states, steps, j - 1, r);
        i := j - 1;
        EntryIsSubmitted(states, steps, i, r);
        if steps[i].Expire? {
          FlushedBefore(states, steps, i, r);
        }
      } else {
        i := OutcomeIsFirst(states, steps, j - 1, r, outcome);
      }
    }
  }

  // -------------------------------------------------------------------------
  // Whose requests a detach drops

  /** Before step n the request was submitted, under this key and stamp. */
  ghost predicate SubmittedWith(steps: seq<Step>, n: nat, r: Request, k: Key, stamp: Stamp) {
    exists j :: 0 <= j < n && j < |steps| && steps[j] == Submit(r, k, stamp)
  }

  /** Before step n the request was submitted, by this session. */
  ghost predicate SubmittedBy(steps: seq<Step>, n: nat, r: Request, session: Session) {
    exists j :: 0 <= j < n && j < |steps| && steps[j].Submit? && steps[j].r == r && steps[j].stamp.session == session
  }

  /** A request in flight has the key and stamp it was submitted with. */
  lemma {:induction false} EntryIsSubmitted(states: seq<State>, steps: seq<Step>, i: nat, r: Request)
    requires IsRun(states, steps) && i < |states| && r in states[i].inFlight
    ensures SubmittedWith(steps, i, r, states[i].inFlight[r].key, states[i].inFlight[r].stamp)
  {
    if i > 0 {
      RunSafe(states, steps, i - 1);
      EntryStep(states[i - 1], steps[i - 1], r);
      if r in states[i - 1].inFlight {
        EntryIsSubmitted(states, steps, i - 1, r);
      }
    }
  }

  lemma {:induction false} KnownOnceSubmitted(states: seq<State>, steps: seq<Step>, i: nat, j: nat, r: Request)
    requires IsRun(states, steps) && j < i < |states| && steps[j].Submit? && steps[j].r == r
    ensures r in states[i].keyOf
  {
    RunSafe(states, steps, i - 1);
    EntryStep(states[i - 1], steps[i - 1], r);
    if j < i - 1 {
      KnownOnceSubmitted(states, steps, i - 1, j, r);
    }
  }

  /** No other submit names a request in flight. */
  lemma {:induction false} OneSubmit(states: seq<State>, steps: seq<Step>, i: nat, j: nat, r: Request)
    requires IsRun(states, steps) && j < i < |states| && r in states[i].inFlight
    requires steps[j].Submit? && steps[j].r == r
    ensures steps[j].stamp == states[i].inFlight[r].stamp && steps[j].k == states[i].inFlight[r].key
  {
    RunSafe(states, steps, i - 1);
    EntryStep(states[i - 1], steps[i - 1], r);
    if j < i - 1 {
      KnownOnceSubmitted(states, steps, i - 1, j, r);
      OneSubmit(states, steps, i - 1, j, r);
    }
  }

  lemma {:induction false} EntryStep(s: State, a: Step, r: Request)
    requires Placed(s) && KeysOk(s) && Enabled(s, a)
    ensures r in s.keyOf || (a.Submit? && a.r == r) ==> r in Do(s, a).keyOf
    ensures r in s.inFlight ==> r in s.keyOf && !(a.Submit? && a.r == r)
    ensures r in Do(s, a).inFlight ==>
              if r in s.inFlight
              then Do(s, a).inFlight[r].key == s.inFlight[r].key && Do(s, a).inFlight[r].stamp == s.inFlight[r].stamp
              else a == Submit(r, Do(s, a).inFlight[r].key, Do(s, a).inFlight[r].stamp) && r !in s.keyOf
  {
  }

  lemma {:induction false} DropStep(s: State, a: Step, r: Request)
    requires Placed(s) && Enabled(s, a)
    ensures r in Do(s, a).dropped && r !in s.dropped <==>
              a.Detach? && r in s.inFlight && s.inFlight[r].stamp.session == a.session
    ensures r in s.dropped ==> r in Do(s, a).dropped
    ensures a.Detach? && r in s.inFlight && s.inFlight[r].stamp.session != a.session ==>
              r in Do(s, a).inFlight && Do(s, a).inFlight[r] == s.inFlight[r]
  {
    assert r in s.inFlight.Keys ==> r !in s.dropped;
  }

  /**
   * A step drops a request exactly when it detaches the session the request was
   * submitted with while it is in flight; requests of other sessions are left alone.
   */
  lemma {:induction false} DroppedIffItsSessionDetached(states: seq<State>, steps: seq<Step>, i: nat, r: Request)
    requires IsRun(states, steps) && i < |steps|
    ensures r in states[i + 1].dropped && r !in states[i].dropped <==>
              steps[i].Detach? && r in states[i].inFlight && SubmittedBy(steps, i, r, steps[i].session)
    ensures steps[i].Detach? && r in states[i].inFlight && !SubmittedBy(steps, i, r, steps[i].session) ==>
              r in states[i + 1].inFlight && states[i + 1].inFlight[r] == states[i].inFlight[r]
  {
    RunSafe(states, steps, i);
    DropStep(states[i], steps[i], r);
    if r in states[i].inFlight && steps[i].Detach? {
      EntryIsSubmitted(states, steps, i, r);
      if SubmittedBy(steps, i, r, steps[i].session) {
        var j :| 0 <= j < i && j < |steps| && steps[j].Submit? && steps[j].r == r
                 && steps[j].stamp.session == steps[i].session;
        OneSubmit(states, steps, i, j, r);
      }
    }
  }

  /**
   * A request that has an outcome keeps it, in flight and when it is taken,
   * unless its own session is detached first; a later completion changes nothing.
   */
  lemma {:induction false} DoneIsFinal(states: seq<State>, steps: seq<Step>, i: nat, j: nat, r: Request, outcome: Phase)
    requires IsRun(states, steps) && i <= j < |states| && HasOutcome(states[i], r, outcome)
    ensures HasOutcome(states[j], r, outcome) || (r in states[j].dropped && DetachedIn(states, steps, i, j, r))
    ensures !DecidedAt(states, steps, j, r)
    ensures j < |steps| && steps[j].Complete? && steps[j].r == r ==> states[j + 1] == states[j]
  {
    FinalStays(states, steps, i, j, r, outcome);
    RunSafe(states, steps, i);
    RunSafe(states, steps, j);
    if r in states[j].dropped {
      NotDroppedYet(states[i], r, outcome);
      DroppedBetween(states, steps, i, j, r);
    }
    if j < |steps| {
      FinalStep(states[j], steps[j], r, outcome);
    }
  }

  /** Between two moments the session r was submitted with was detached. */
  ghost predicate DetachedIn(states: seq<State>, steps: seq<Step>, i: nat, j: nat, r: Request) {
    exists l :: i <= l < j && l < |steps| && steps[l].Detach? && SubmittedBy(steps, l, r, steps[l].session)
  }

  lemma {:induction false} NotDroppedYet(s: State, r: Request, outcome: Phase)
    requires Placed(s) && HasOutcome(s, r, outcome)
    ensures r !in s.dropped
  {
    assert r in s.inFlight.Keys || r in s.delivered.Keys;
  }

  lemma {:induction false} DroppedBetween(states: seq<State>, steps: seq<Step>, i: nat, j: nat, r: Request)
    requires IsRun(states, steps) && i <= j < |states| && r !in states[i].dropped && r in states[j].dropped
    ensures DetachedIn(states, steps, i, j, r)
  {
    if r in states[j - 1].dropped {
      DroppedBetween(states, steps, i, j - 1, r);
      var l :| i <= l < j - 1 && l < |steps| && steps[l].Detach? && SubmittedBy(steps, l, r, steps[l].session);
      assert steps[l].Detach?;
    } else {
      DroppedIffItsSessionDetached(states, steps, j - 1, r);
    }
  }

  lemma {:induction false} FinalStays(states: seq<State>, steps: seq<Step>, i: nat, j: nat, r: Request, outcome: Phase)
    requires IsRun(states, steps) && i <= j < |states| && Final(states[i], r, outcome)
    ensures Final(states[j], r, outcome)
  {
    if i < j {
      FinalStays(states, steps, i, j - 1, r, outcome);
      RunSafe(states, steps, j - 1);
      FinalStep(states[j - 1], steps[j - 1], r, outcome);
    }
  }

  // -------------------------------------------------------------------------
  // The end of a request

  lemma {:induction false} EndedStep(s: State, a: Step, r: Request)
    requires Safe(s) && Enabled(s, a)
    ensures r in Do(s, a).ended <==> r in s.ended || Ends(a, r)
    ensures Ends(a, r) ==> r !in s.ended && r !in s.inFlight
  {
  }

  lemma {:induction false} EndedStays(states: seq<State>, steps: seq<Step>, i: nat, j: nat, r: Request)
    requires IsRun(states, steps) && i <= j < |states| && r in states[i].ended
    ensures r in states[j].ended
  {
    if i < j {
      EndedStays(states, steps, i, j - 1, r);
      RunSafe(states, steps, j - 1);
      EndedStep(states[j - 1], steps[j - 1], r);
    }
  }

  /** No two steps of a run both call EndAsync for the same request. */
  lemma {:induction false} EndsOnce(states: seq<State>, steps: seq<Step>, i: nat, j: nat, r: Request)
    requires IsRun(states, steps) && i < j < |steps| && Ends(steps[i], r)
    ensures r !in states[i].inFlight && !Ends(steps[j], r)
  {
    RunSafe(states, steps, i);
    EndedStep(states[i], steps[i], r);
    EndedStays(states, steps, i + 1, j, r);
    RunSafe(states, steps, j);
    EndedStep(states[j], steps[j], r);
  }

  lemma {:induction false} EndOf(states: seq<State>, steps: seq<Step>, j: nat, r: Request) returns (i: nat)
    requires IsRun(states, steps) && j < |states| && r in states[j].ended
    ensures i < j && Ends(steps[i], r)
  {
    if j == 0 {
      assert false;
    } else {
      RunSafe(states, steps, j - 1);
      EndedStep(states[j - 1], steps[j - 1], r);
      if Ends(steps[j - 1], r) {
        i := j - 1;
      } else {
        i := EndOf(states, steps, j - 1, r);
      }
    }
  }

  predicate Leaving(s: State, r: Request) {
    r in s.inFlight || r in s.held || r in s.detaching
  }

  /**
   * A submitted request has called EndAsync if and only if it is neither in
   * flight, nor taken, nor dropped and unfinished.
   */
  lemma {:induction false} EndedIffGone(states: seq<State>, steps: seq<Step>, j: nat, r: Request)
    requires IsRun(states, steps) && j < |states| && r in states[j].keyOf
    ensures !Leaving(states[j], r) <==> exists i :: 0 <= i < j && Ends(steps[i], r)
  {
    RunSafe(states, steps, j);
    var s := states[j];
    assert r in s.keyOf.Keys;
    if r in s.ended {
      var i := EndOf(states, steps, j, r);
    }
    forall i | 0 <= i < j && Ends(steps[i], r) ensures r in s.ended {
      RunSafe(states, steps, i);
      EndedStep(states[i], steps[i], r);
      EndedStays(states, steps, i + 1, j, r);
    }
  }

  /**
   * A node's pending count is its requests in flight, plus those just begun,
   * plus those that left a buffer but have not called EndAsync yet.
   */
  lemma {:induction false} PendingCountsRequests(states: seq<State>, steps: seq<Step>, i: nat, n: Node)
    requires IsRun(states, steps) && i < |states|
    ensures Num(states[i].pending, n) == Num(states[i].beginning, n) + |Unfinished(states[i], n)|
    ensures forall r :: r in Unfinished(states[i], n) <==>
              r in states[i].keyOf && states[i].keyOf[r].node == n
              && (r in states[i].inFlight || r in states[i].held || r in states[i].detaching)
  {
    RunSafe(states, steps, i);
    var s := states[i];
    assert Counted(s, n);
    forall r | r in s.keyOf ensures r !in s.ended <==> r in s.inFlight || r in s.held || r in s.detaching {
      assert r in s.keyOf.Keys;
    }
  }

  /** Between the two sections of every operation it is exactly the requests in flight. */
  lemma {:induction false} PendingIsInFlight(states: seq<State>, steps: seq<Step>, i: nat, n: Node)
    requires IsRun(states, steps) && i < |states|
    requires states[i].held == {} && states[i].detaching == {} && Num(states[i].beginning, n) == 0
    ensures Num(states[i].pending, n) == |set r | r in states[i].inFlight && states[i].inFlight[r].key.node == n|
  {
    RunSafe(states, steps, i);
    PendingCountsRequests(states, steps, i, n);
    var s := states[i];
    assert Unfinished(s, n) == set r | r in s.inFlight && s.inFlight[r].key.node == n;
  }
}
