/**
 * The lock-free slot protocol of NodeRuntime, with the executor turn of the
 * Scheduler around it, as a transition system over sequentially consistent
 * atomic steps. An agent is one call in progress; any number of agents and the
 * coordinator that holds the node interleave freely.
 */
module NodeScheduling {
  type Agent = nat

  datatype NodeState = Ready | Running | AsyncPending | Draining | Closing | Closed | Failed

  /** The atomics of a node, with two history counters: flushes won and requests begun. */
  datatype Shared = Shared(
    slots: int, inFlight: int, asyncPending: int, busy: int, held: bool, state: NodeState, wins: nat, begun: nat)

  /** Where an agent stands between two atomic accesses. */
  datatype Pc =
    | Idle
      // TrySchedule
    | SawState | SawFree | Reserved | Refused | Scheduled
      // Invoke and the gates of InvokeBody
    | Entered | Gated | CancelEarly | Leaving | Checked
      // BeginInvoke, the operator call, EndInvoke
    | Invoking | Invoked | Ended(left: int) | Returned(left: int) | After
      // TryEnterDraining, called from a turn (busy) or from outside one
    | SawNoCall(inTurn: bool) | SawNoAsync(inTurn: bool, begun: nat) | SawSlots(inTurn: bool, begun: nat)
    | Owner(inTurn: bool, begun: nat) | Undoing(inTurn: bool)

  /** The coordinator's bounded pause: Hold, then two loads of quiescent(), then Release. */
  datatype Pause = Free | Holding | SawIdle | Quiet

  datatype State = State(max: nat, sh: Shared, pc: map<Agent, Pc>, pause: Pause)

  /** One atomic access by an agent. */
  datatype Act =
    | LoadState | LoadHeld | Reserve | Recheck | Refund | DropTask | EnterBusy
    | CheckState | CheckStop | CheckHeld | CancelGate | CancelTurn | LeaveBusy
    | BeginInvoke | MarkRunning | BeginAsync | EndInvoke | ReturnSlot | MarkReady
    | LoadInFlight | LoadAsync | LoadSlots | CasDraining | Verify | Undo

  /** Completions, parking of async nodes, failures, and closing by the winner. */
  datatype Env = EndAsync | EnterAsyncPending | LeaveAsyncPending | Fail | Close(final: NodeState)

  datatype Coordination = Hold | LoadBusy | LoadQuiet | Release

  datatype Step = By(t: Agent, act: Act) | Around(env: Env) | Coord(coord: Coordination)

  // -------------------------------------------------------------------------
  // What a program counter implies

  predicate HoldsSlot(p: Pc) {
    p.Reserved? || p.Refused? || p.Scheduled? || p.Entered? || p.Gated? || p.CancelEarly? || p.Checked?
    || p.Invoking? || p.Invoked? || p.Ended?
  }

  predicate InCall(p: Pc) {
    p.Invoking? || p.Invoked?
  }

  predicate DrainsInTurn(p: Pc) {
    (p.SawNoCall? || p.SawNoAsync? || p.SawSlots? || p.Owner? || p.Undoing?) && p.inTurn
  }

  /** Past the gates of a turn: may pop, emit, invoke or drain. */
  predicate Active(p: Pc) {
    p.Checked? || p.Invoking? || p.Invoked? || p.Ended? || p.Returned? || p.After? || DrainsInTurn(p)
  }

  predicate IsBusy(p: Pc) {
    p.Entered? || p.Gated? || p.CancelEarly? || p.Leaving? || Active(p)
  }

  /** Past the state gate of a turn, up to the end of the operator call. */
  predicate Admitted(p: Pc) {
    p.Gated? || p.Checked? || InCall(p)
  }

  predicate Owns(p: Pc) {
    p.Owner? || p.Undoing?
  }

  predicate SawNone(p: Pc) {
    p.SawNoAsync? || p.SawSlots? || p.Owner?
  }

  predicate Schedulable(n: NodeState) {
    n.Ready? || n.Running?
  }

  predicate Final(n: NodeState) {
    n.Draining? || n.Closing? || n.Closed? || n.Failed?
  }

  // -------------------------------------------------------------------------
  // Steps

  /** Each access starts where the previous one of its agent left it. */
  predicate From(p: Pc, a: Act) {
    match a
    case LoadState => p.Idle?
    case LoadHeld => p.SawState?
    case Reserve => p.SawFree?
    case Recheck => p.Reserved?
    case Refund => p.Refused?
    case DropTask => p.Scheduled?
    case EnterBusy => p.Scheduled?
    case CheckState => p.Entered?
    case CheckStop => p.Gated?
    case CheckHeld => p.Gated?
    case CancelGate => p.CancelEarly?
    case CancelTurn => p.Checked?
    case LeaveBusy => p.Leaving? || p.After?
    case BeginInvoke => p.Checked?
    case MarkRunning => p.Invoking?
    case BeginAsync => p.Invoked?
    case EndInvoke => p.Invoked?
    case ReturnSlot => p.Ended?
    case MarkReady => p.Returned?
    case LoadInFlight => p.Idle? || p.After?
    case LoadAsync => p.SawNoCall?
    case LoadSlots => p.SawNoAsync?
    case CasDraining => p.SawSlots?
    case Verify => p.Owner?
    case Undo => p.Undoing?
  }

  function Outside(inTurn: bool): Pc {
    if inTurn then After else Idle
  }

  function Cas(sh: Shared, expected: NodeState, desired: NodeState): Shared {
    if sh.state == expected then sh.(state := desired) else sh
  }

  /** The agent's next program counter. */
  function NextPc(max: nat, sh: Shared, p: Pc, a: Act): Pc
    requires From(p, a)
  {
    match a
    case LoadState => if Schedulable(sh.state) then SawState else Idle
    case LoadHeld => if sh.held then Idle else SawFree
    case Reserve => if sh.slots > 0 then Reserved else Idle
    case Recheck => if sh.held then Refused else Scheduled
    case Refund => Idle
    case DropTask => Idle
    case EnterBusy => Entered
    case CheckState => if Schedulable(sh.state) then Gated else CancelEarly
    case CheckStop => CancelEarly
    case CheckHeld => if sh.held then CancelEarly else Checked
    case CancelGate => Leaving
    case CancelTurn => After
    case LeaveBusy => Idle
    case BeginInvoke => Invoking
    case MarkRunning => Invoked
    case BeginAsync => Invoked
    case EndInvoke => Ended(sh.inFlight - 1)
    case ReturnSlot => Returned(p.left)
    case MarkReady => After
    case LoadInFlight => if sh.inFlight == 0 then SawNoCall(p.After?) else p
    case LoadAsync => if sh.asyncPending == 0 then SawNoAsync(p.inTurn, sh.begun) else Outside(p.inTurn)
    case LoadSlots => if sh.slots == max then SawSlots(p.inTurn, p.begun) else Outside(p.inTurn)
    case CasDraining => if sh.state.Ready? then Owner(p.inTurn, p.begun) else Outside(p.inTurn)
    case Verify => if sh.slots == max then Outside(p.inTurn) else Undoing(p.inTurn)
    case Undo => Outside(p.inTurn)
  }

  /** The access itself; plain loads leave the atomics alone. */
  function Access(max: nat, sh: Shared, p: Pc, a: Act): Shared
    requires From(p, a)
  {
    match a
    case Reserve => if sh.slots > 0 then sh.(slots := sh.slots - 1) else sh
    case Refund => sh.(slots := sh.slots + 1)
    case DropTask => sh.(slots := sh.slots + 1)
    case EnterBusy => sh.(busy := sh.busy + 1)
    case CancelGate => sh.(slots := sh.slots + 1)
    case CancelTurn => sh.(slots := sh.slots + 1)
    case LeaveBusy => sh.(busy := sh.busy - 1)
    case BeginInvoke => sh.(inFlight := sh.inFlight + 1)
    case MarkRunning => Cas(sh, Ready, Running)
    case BeginAsync => sh.(asyncPending := sh.asyncPending + 1, begun := sh.begun + 1)
    case EndInvoke => sh.(inFlight := sh.inFlight - 1)
    case ReturnSlot => sh.(slots := sh.slots + 1)
    case MarkReady => if p.left == 0 then Cas(sh, Running, Ready) else sh
    case CasDraining => Cas(sh, Ready, Draining)
    case Verify => if sh.slots == max then sh.(wins := sh.wins + 1) else sh
    case Undo => Cas(sh, Draining, Ready)
    case _ => sh
  }

  function DoEnv(sh: Shared, b: Env): Shared {
    match b
    case EndAsync => sh.(asyncPending := sh.asyncPending - 1)
    case EnterAsyncPending => Cas(sh, Ready, AsyncPending)
    case LeaveAsyncPending => Cas(sh, AsyncPending, Ready)
    case Fail => sh.(state := Failed)
    case Close(final) => sh.(state := final)
  }

  predicate CoordFrom(p: Pause, b: Coordination) {
    match b
    case Hold => p.Free?
    case LoadBusy => p.Holding?
    case LoadQuiet => p.SawIdle?
    case Release => !p.Free?
  }

  function DoCoord(s: State, b: Coordination): State {
    match b
    case Hold => s.(sh := s.sh.(held := true), pause := Holding)
    case LoadBusy => s.(pause := if s.sh.busy == 0 then SawIdle else Holding)
    case LoadQuiet => s.(pause := if s.sh.slots == s.max then Quiet else Holding)
    case Release => s.(sh := s.sh.(held := false), pause := Free)
  }

  predicate Enabled(s: State, a: Step) {
    match a
    case By(t, act) => t in s.pc && From(s.pc[t], act)
    case Around(b) =>
      && (b.EndAsync? ==> s.sh.asyncPending > 0)
      && (b.Close? ==> s.sh.wins > 0 && (b.final.Closing? || b.final.Closed?))
    case Coord(b) => CoordFrom(s.pause, b)
  }

  function Do(s: State, a: Step): State
    requires Enabled(s, a)
  {
    match a
    case By(t, act) =>
      var p := s.pc[t];
      s.(sh := Access(s.max, s.sh, p, act), pc := s.pc[t := NextPc(s.max, s.sh, p, act)])
    case Around(b) => s.(sh := DoEnv(s.sh, b))
    case Coord(b) => DoCoord(s, b)
  }

  predicate Init(s: State) {
    && s.sh == Shared(s.max, 0, 0, 0, false, Ready, 0, 0)
    && (forall t :: t in s.pc ==> s.pc[t] == Idle)
    && s.pause == Free
  }

  // -------------------------------------------------------------------------
  // Counting agents

  ghost function Which(pc: map<Agent, Pc>, f: Pc -> bool): set<Agent> {
    set t | t in pc && f(pc[t])
  }

  ghost function Count(pc: map<Agent, Pc>, f: Pc -> bool): nat {
    |Which(pc, f)|
  }

  function One(b: bool): int {
    if b then 1 else 0
  }

  lemma {:induction false} CountMove(pc: map<Agent, Pc>, t: Agent, p: Pc, f: Pc -> bool)
    requires t in pc
    ensures Count(pc[t := p], f) == Count(pc, f) - One(f(pc[t])) + One(f(p))
  {
    var qc := pc[t := p];
    var rest := Which(pc, f) - {t};
    assert Which(pc, f) == rest + if f(pc[t]) then {t} else {};
    assert Which(qc, f) == rest + if f(p) then {t} else {};
  }

  lemma {:induction false} CountZero(pc: map<Agent, Pc>, f: Pc -> bool, t: Agent)
    requires Count(pc, f) == 0 && t in pc
    ensures !f(pc[t])
  {
    assert t !in Which(pc, f);
  }

  lemma {:induction false} CountNone(pc: map<Agent, Pc>, f: Pc -> bool)
    requires forall t :: t in pc ==> !f(pc[t])
    ensures Count(pc, f) == 0
  {
    assert Which(pc, f) == {};
  }

  // -------------------------------------------------------------------------
  // Conservation of slots, calls and turns

  ghost predicate Conserved(max: nat, sh: Shared, pc: map<Agent, Pc>) {
    && 0 <= sh.slots && sh.slots + Count(pc, HoldsSlot) == max
    && sh.inFlight == Count(pc, InCall)
    && sh.busy == Count(pc, IsBusy)
  }

  /** The counters follow the program counter of the agent that moves. */
  predicate Balanced(sh: Shared, p: Pc, sh': Shared, p': Pc) {
    && (0 <= sh.slots ==> 0 <= sh'.slots)
    && sh'.slots == sh.slots + One(HoldsSlot(p)) - One(HoldsSlot(p'))
    && sh'.inFlight == sh.inFlight - One(InCall(p)) + One(InCall(p'))
    && sh'.busy == sh.busy - One(IsBusy(p)) + One(IsBusy(p'))
  }

  lemma {:induction false} SlotsFollow(max: nat, sh: Shared, p: Pc, a: Act)
    requires From(p, a)
    ensures Access(max, sh, p, a).slots == sh.slots + One(HoldsSlot(p)) - One(HoldsSlot(NextPc(max, sh, p, a)))
    ensures 0 <= sh.slots ==> 0 <= Access(max, sh, p, a).slots
  {
  }

  lemma {:induction false} CallsFollow(max: nat, sh: Shared, p: Pc, a: Act)
    requires From(p, a)
    ensures Access(max, sh, p, a).inFlight == sh.inFlight - One(InCall(p)) + One(InCall(NextPc(max, sh, p, a)))
  {
  }

  lemma {:induction false} TurnsFollow(max: nat, sh: Shared, p: Pc, a: Act)
    requires From(p, a)
    ensures Access(max, sh, p, a).busy == sh.busy - One(IsBusy(p)) + One(IsBusy(NextPc(max, sh, p, a)))
  {
  }

  lemma {:induction false} AccessBalanced(max: nat, sh: Shared, p: Pc, a: Act)
    requires From(p, a)
    ensures Balanced(sh, p, Access(max, sh, p, a), NextPc(max, sh, p, a))
  {
    SlotsFollow(max, sh, p, a);
    CallsFollow(max, sh, p, a);
    TurnsFollow(max, sh, p, a);
  }

  lemma {:induction false} ConservedMove(max: nat, sh: Shared, pc: map<Agent, Pc>, t: Agent, sh': Shared, p': Pc)
    requires Conserved(max, sh, pc) && t in pc && Balanced(sh, pc[t], sh', p')
    ensures Conserved(max, sh', pc[t := p'])
  {
    CountMove(pc, t, p', HoldsSlot);
    CountMove(pc, t, p', InCall);
    CountMove(pc, t, p', IsBusy);
  }

  /** All slots free: nobody holds one. */
  lemma {:induction false} AllFree(max: nat, sh: Shared, pc: map<Agent, Pc>, t: Agent)
    requires Conserved(max, sh, pc) && sh.slots == max && t in pc
    ensures !HoldsSlot(pc[t])
  {
    CountZero(pc, HoldsSlot, t);
  }

  // -------------------------------------------------------------------------
  // The drain transition has one owner, and a winner admits no further call

  ghost predicate DrainSafe(sh: Shared, pc: map<Agent, Pc>) {
    && sh.wins <= 1
    && (forall t, u :: t in pc && u in pc && Owns(pc[t]) && Owns(pc[u]) ==> t == u)
    && (forall t :: t in pc && Owns(pc[t]) ==> sh.wins == 0 && (sh.state.Draining? || sh.state.Failed?))
    && (sh.wins == 1 ==> Final(sh.state) && forall t :: t in pc ==> !Admitted(pc[t]))
  }

  /** What one access can do to the drain transition. */
  predicate DrainLocal(max: nat, sh: Shared, p: Pc, sh': Shared, p': Pc) {
    && (sh'.wins == sh.wins || Wins(max, sh, p, sh', p'))
    && (Owns(p') ==> (Owns(p) && sh'.state == sh.state) || (sh.state.Ready? && sh'.state.Draining?))
    && (Final(sh.state) ==> sh'.state == sh.state || (Owns(p) && !Owns(p')))
    && (!Final(sh.state) && Final(sh'.state) ==> Owns(p'))
    && (Admitted(p') ==> Admitted(p) || !Final(sh.state))
  }

  predicate Wins(max: nat, sh: Shared, p: Pc, sh': Shared, p': Pc) {
    && sh'.wins == sh.wins + 1 && sh.slots == max && Owns(p) && !Owns(p') && !HoldsSlot(p')
    && sh'.state == sh.state
  }

  lemma {:induction false} AccessDrainLocal(max: nat, sh: Shared, p: Pc, a: Act)
    requires From(p, a)
    ensures DrainLocal(max, sh, p, Access(max, sh, p, a), NextPc(max, sh, p, a))
  {
  }

  lemma {:induction false} DrainSafeMove(max: nat, sh: Shared, pc: map<Agent, Pc>, t: Agent, sh': Shared, p': Pc)
    requires DrainSafe(sh, pc) && t in pc && DrainLocal(max, sh, pc[t], sh', p') && sh'.wins == sh.wins
    ensures DrainSafe(sh', pc[t := p'])
  {
  }

  lemma {:induction false} DrainSafeWin(max: nat, sh: Shared, pc: map<Agent, Pc>, t: Agent, sh': Shared, p': Pc)
    requires Conserved(max, sh, pc) && DrainSafe(sh, pc) && t in pc && Wins(max, sh, pc[t], sh', p')
    ensures DrainSafe(sh', pc[t := p'])
  {
    forall u | u in pc ensures !HoldsSlot(pc[u]) {
      AllFree(max, sh, pc, u);
    }
  }

  // -------------------------------------------------------------------------
  // A held node that was seen quiescent stays still

  ghost predicate PauseSafe(sh: Shared, pc: map<Agent, Pc>, pause: Pause) {
    && (sh.held <==> !pause.Free?)
    && (pause.SawIdle? || pause.Quiet? ==> forall t :: t in pc ==> !Active(pc[t]))
    && (pause.Quiet? ==> forall t :: t in pc && HoldsSlot(pc[t]) ==> pc[t].Reserved? || pc[t].Refused?)
  }

  predicate PauseLocal(sh: Shared, p: Pc, sh': Shared, p': Pc) {
    && sh'.held == sh.held
    && (Active(p') ==> Active(p) || !sh.held)
    && (HoldsSlot(p') ==> HoldsSlot(p) || p'.Reserved?)
    && (HoldsSlot(p') && (p.Reserved? || p.Refused?) ==> p'.Refused? || !sh.held)
  }

  lemma {:induction false} AccessPauseLocal(max: nat, sh: Shared, p: Pc, a: Act)
    requires From(p, a)
    ensures PauseLocal(sh, p, Access(max, sh, p, a), NextPc(max, sh, p, a))
  {
  }

  lemma {:induction false} PauseSafeMove(sh: Shared, pc: map<Agent, Pc>, pause: Pause, t: Agent, sh': Shared, p': Pc)
    requires PauseSafe(sh, pc, pause) && t in pc && PauseLocal(sh, pc[t], sh', p')
    ensures PauseSafe(sh', pc[t := p'], pause)
  {
  }

  lemma {:induction false} PauseSafeCoord(s: State, b: Coordination)
    requires Safe(s) && CoordFrom(s.pause, b)
    ensures PauseSafe(DoCoord(s, b).sh, s.pc, DoCoord(s, b).pause)
  {
    if b.LoadBusy? && s.sh.busy == 0 {
      forall t | t in s.pc ensures !Active(s.pc[t]) {
        CountZero(s.pc, IsBusy, t);
      }
    } else if b.LoadQuiet? && s.sh.slots == s.max {
      forall t | t in s.pc ensures !HoldsSlot(s.pc[t]) {
        AllFree(s.max, s.sh, s.pc, t);
      }
    }
  }

  // -------------------------------------------------------------------------
  // Asynchronous requests and the drain attempt

  /** At most the requests begun since an attempt saw none pending are pending. */
  ghost predicate AsyncSafe(sh: Shared, pc: map<Agent, Pc>) {
    && 0 <= sh.asyncPending
    && forall t :: t in pc && SawNone(pc[t]) ==> pc[t].begun + sh.asyncPending <= sh.begun
  }

  predicate AsyncLocal(sh: Shared, p: Pc, sh': Shared, p': Pc) {
    && sh'.asyncPending - sh.asyncPending == sh'.begun - sh.begun >= 0
    && (SawNone(p') ==> if SawNone(p) then p'.begun == p.begun else sh'.asyncPending == 0 && p'.begun == sh'.begun)
  }

  lemma {:induction false} AccessAsyncLocal(max: nat, sh: Shared, p: Pc, a: Act)
    requires From(p, a)
    ensures AsyncLocal(sh, p, Access(max, sh, p, a), NextPc(max, sh, p, a))
  {
  }

  lemma {:induction false} AsyncSafeMove(sh: Shared, pc: map<Agent, Pc>, t: Agent, sh': Shared, p': Pc)
    requires AsyncSafe(sh, pc) && t in pc && AsyncLocal(sh, pc[t], sh', p')
    ensures AsyncSafe(sh', pc[t := p'])
  {
  }

  // -------------------------------------------------------------------------
  // Every step keeps every invariant

  ghost predicate Safe(s: State) {
    && Conserved(s.max, s.sh, s.pc)
    && DrainSafe(s.sh, s.pc)
    && PauseSafe(s.sh, s.pc, s.pause)
    && AsyncSafe(s.sh, s.pc)
  }

  lemma {:induction false} AccessSafe(s: State, t: Agent, a: Act)
    requires Safe(s) && t in s.pc && From(s.pc[t], a)
    ensures Safe(Do(s, By(t, a)))
  {
    var p := s.pc[t];
    var sh', p' := Access(s.max, s.sh, p, a), NextPc(s.max, s.sh, p, a);
    AccessBalanced(s.max, s.sh, p, a);
    AccessDrainLocal(s.max, s.sh, p, a);
    AccessPauseLocal(s.max, s.sh, p, a);
    AccessAsyncLocal(s.max, s.sh, p, a);
    MoveSafe(s, t, sh', p');
  }

  lemma {:induction false} MoveSafe(s: State, t: Agent, sh': Shared, p': Pc)
    requires Safe(s) && t in s.pc
    requires Balanced(s.sh, s.pc[t], sh', p') && DrainLocal(s.max, s.sh, s.pc[t], sh', p')
    requires PauseLocal(s.sh, s.pc[t], sh', p') && AsyncLocal(s.sh, s.pc[t], sh', p')
    ensures Safe(s.(sh := sh', pc := s.pc[t := p']))
  {
    ConservedMove(s.max, s.sh, s.pc, t, sh', p');
    if sh'.wins == s.sh.wins {
      DrainSafeMove(s.max, s.sh, s.pc, t, sh', p');
    } else {
      DrainSafeWin(s.max, s.sh, s.pc, t, sh', p');
    }
    PauseSafeMove(s.sh, s.pc, s.pause, t, sh', p');
    AsyncSafeMove(s.sh, s.pc, t, sh', p');
  }

  lemma {:induction false} EnvSafe(s: State, b: Env)
    requires Safe(s) && Enabled(s, Around(b))
    ensures Safe(s.(sh := DoEnv(s.sh, b)))
  {
  }

  lemma {:induction false} StepSafe(s: State, a: Step)
    requires Safe(s) && Enabled(s, a)
    ensures Safe(Do(s, a))
  {
    match a
    case By(t, act) => AccessSafe(s, t, act);
    case Around(b) => EnvSafe(s, b);
    case Coord(b) => PauseSafeCoord(s, b);
  }

  lemma {:induction false} InitSafe(s: State)
    requires Init(s)
    ensures Safe(s)
  {
    CountNone(s.pc, HoldsSlot);
    CountNone(s.pc, InCall);
    CountNone(s.pc, IsBusy);
  }

  // -------------------------------------------------------------------------
  // Runs

  ghost predicate IsRun(states: seq<State>, steps: seq<Step>) {
    && |states| == |steps| + 1
    && Init(states[0])
    && forall i :: 0 <= i < |steps| ==> Enabled(states[i], steps[i]) && states[i + 1] == Do(states[i], steps[i])
  }

  lemma {:induction false} RunSafe(states: seq<State>, steps: seq<Step>, i: nat)
    requires IsRun(states, steps) && i < |states|
    ensures Safe(states[i]) && states[i].max == states[0].max
  {
    if i == 0 {
      InitSafe(states[0]);
    } else {
      RunSafe(states, steps, i - 1);
      StepSafe(states[i - 1], steps[i - 1]);
    }
  }

  lemma {:induction false} WinsGrow(s: State, a: Step)
    requires Enabled(s, a)
    ensures s.sh.wins <= Do(s, a).sh.wins
  {
    if a.By? {
      AccessDrainLocal(s.max, s.sh, s.pc[a.t], a.act);
    }
  }

  lemma {:induction false} WinsStay(states: seq<State>, steps: seq<Step>, i: nat, j: nat)
    requires IsRun(states, steps) && i <= j < |states|
    ensures states[i].sh.wins <= states[j].sh.wins
  {
    if i < j {
      WinsStay(states, steps, i, j - 1);
      WinsGrow(states[j - 1], steps[j - 1]);
    }
  }

  /**
   * Free slots and reservations add up to max_parallelism, the calls in flight
   * are the agents inside one, and at most one attempt to drain ever wins.
   */
  lemma {:induction false} SlotsConserved(states: seq<State>, steps: seq<Step>, i: nat)
    requires IsRun(states, steps) && i < |states|
    ensures states[i].sh.slots + Count(states[i].pc, HoldsSlot) == states[0].max
    ensures 0 <= states[i].sh.slots <= states[0].max
    ensures states[i].sh.inFlight == Count(states[i].pc, InCall)
    ensures states[i].sh.wins <= 1
  {
    RunSafe(states, steps, i);
  }

  predicate Begins(a: Step) {
    a.By? && a.act.BeginInvoke?
  }

  /** Once an attempt to drain has won, no agent is in a call and none begins one. */
  lemma {:induction false} NoCallAfterFlush(states: seq<State>, steps: seq<Step>, i: nat, j: nat)
    requires IsRun(states, steps) && i <= j < |states| && states[i].sh.wins > 0
    ensures states[j].sh.inFlight == 0 && Final(states[j].sh.state)
    ensures j < |steps| ==> !Begins(steps[j])
  {
    RunSafe(states, steps, j);
    WinsStay(states, steps, i, j);
    CountNone(states[j].pc, InCall);
  }

  lemma {:induction false} OnlyVerifyWins(s: State, a: Step)
    requires Enabled(s, a) && s.sh.wins < Do(s, a).sh.wins
    ensures a == By(a.t, Verify) && s.sh.slots == s.max
  {
  }

  /** The winning step finds every slot free and no call in flight. */
  lemma {:induction false} WinFindsNodeIdle(states: seq<State>, steps: seq<Step>, i: nat, t: Agent)
    requires IsRun(states, steps) && i < |steps| && states[i].sh.wins < states[i + 1].sh.wins && t in states[i].pc
    ensures states[i].sh.inFlight == 0 && !HoldsSlot(states[i].pc[t]) && states[i].sh.wins == 0
  {
    var s := states[i];
    RunSafe(states, steps, i);
    OnlyVerifyWins(s, steps[i]);
    forall u | u in s.pc ensures !HoldsSlot(s.pc[u]) {
      AllFree(s.max, s.sh, s.pc, u);
    }
    CountNone(s.pc, InCall);
  }

  ghost predicate NoRelease(steps: seq<Step>, i: nat, j: nat)
    requires i <= j <= |steps|
  {
    forall k :: i <= k < j ==> steps[k] != Coord(Release)
  }

  lemma {:induction false} QuietStays(states: seq<State>, steps: seq<Step>, i: nat, j: nat)
    requires IsRun(states, steps) && i <= j < |states| && states[i].pause == Quiet && NoRelease(steps, i, j)
    ensures states[j].pause == Quiet
  {
    if i < j {
      QuietStays(states, steps, i, j - 1);
    }
  }

  /**
   * From the moment the coordinator sees the held node quiescent until Release,
   * no reservation succeeds and no agent is past the gates of a turn: nothing
   * pops, emits, begins a call or drains from within one.
   */
  lemma {:induction false} HeldNodeIsStill(states: seq<State>, steps: seq<Step>, i: nat, j: nat, t: Agent)
    requires IsRun(states, steps) && i <= j < |states| && states[i].pause == Quiet && NoRelease(steps, i, j)
    requires t in states[j].pc
    ensures !Active(states[j].pc[t]) && !states[j].pc[t].Scheduled?
    ensures states[j].sh.inFlight == 0
    ensures j < |steps| && steps[j] == By(t, Recheck) ==> states[j + 1].pc[t] == Refused
  {
    QuietStays(states, steps, i, j);
    RunSafe(states, steps, j);
    CountNone(states[j].pc, InCall);
  }

  // -------------------------------------------------------------------------
  // Pending requests at the moment of the flush

  predicate BeginsRequest(a: Step) {
    a.By? && a.act.BeginAsync?
  }

  predicate EndsRequest(a: Step) {
    a == Around(EndAsync)
  }

  /** How many of the steps from i up to j begin, or end, an asynchronous request. */
  function Begun(steps: seq<Step>, i: nat, j: nat): nat
    requires i <= j <= |steps|
  {
    if i == j then 0 else Begun(steps, i, j - 1) + if BeginsRequest(steps[j - 1]) then 1 else 0
  }

  function Finished(steps: seq<Step>, i: nat, j: nat): nat
    requires i <= j <= |steps|
  {
    if i == j then 0 else Finished(steps, i, j - 1) + if EndsRequest(steps[j - 1]) then 1 else 0
  }

  lemma {:induction false} PendingStep(s: State, a: Step)
    requires Enabled(s, a)
    ensures Do(s, a).sh.asyncPending
         == s.sh.asyncPending + (if BeginsRequest(a) then 1 else 0) - (if EndsRequest(a) then 1 else 0)
  {
  }

  lemma {:induction false} PendingCounts(states: seq<State>, steps: seq<Step>, i: nat, j: nat)
    requires IsRun(states, steps) && i <= j < |states|
    ensures states[j].sh.asyncPending == states[i].sh.asyncPending + Begun(steps, i, j) - Finished(steps, i, j)
  {
    if i < j {
      PendingCounts(states, steps, i, j - 1);
      PendingStep(states[j - 1], steps[j - 1]);
    }
  }

  /** The step in which an attempt to drain, now past its look, saw no request pending. */
  ghost predicate IsLook(states: seq<State>, steps: seq<Step>, l: nat, j: nat, t: Agent)
    requires IsRun(states, steps) && j < |states|
  {
    && l < j && steps[l] == By(t, LoadAsync) && states[l].sh.asyncPending == 0
    && forall k :: l < k <= j ==> t in states[k].pc && SawNone(states[k].pc[t])
  }

  lemma {:induction false} LookOf(states: seq<State>, steps: seq<Step>, j: nat, t: Agent) returns (l: nat)
    requires IsRun(states, steps) && j < |states| && t in states[j].pc && SawNone(states[j].pc[t])
    ensures IsLook(states, steps, l, j, t)
  {
    assert j > 0;
    l := j - 1;
    if t in states[j - 1].pc && SawNone(states[j - 1].pc[t]) {
      l := LookOf(states, steps, j - 1, t);
    }
  }

  /**
   * What is pending at the flush is what began since the attempt saw none, less
   * what ended since: none is pending exactly when all of it has ended.
   */
  lemma {:induction false} PendingAtFlush(states: seq<State>, steps: seq<Step>, i: nat) returns (l: nat)
    requires IsRun(states, steps) && i < |steps| && states[i].sh.wins < states[i + 1].sh.wins
    ensures steps[i].By? && steps[i].t in states[i].pc && states[i].pc[steps[i].t].Owner?
    ensures IsLook(states, steps, l, i, steps[i].t)
    ensures states[i].sh.asyncPending == Begun(steps, l, i) - Finished(steps, l, i)
    ensures states[i].sh.asyncPending == 0 <==> Begun(steps, l, i) == Finished(steps, l, i)
    ensures states[i].sh.asyncPending <= states[i].sh.begun - states[i].pc[steps[i].t].begun
  {
    RunSafe(states, steps, i);
    OnlyVerifyWins(states[i], steps[i]);
    l := LookOf(states, steps, i, steps[i].t);
    PendingCounts(states, steps, l, i);
  }

  ghost predicate NoReserve(steps: seq<Step>, i: nat, j: nat)
    requires i <= j <= |steps|
  {
    forall k :: i <= k < j ==> !(steps[k].By? && steps[k].act.Reserve?)
  }

  ghost predicate NoneHolds(s: State) {
    forall t :: t in s.pc ==> !HoldsSlot(s.pc[t])
  }

  lemma {:induction false} NothingBeginsStep(s: State, a: Step)
    requires Enabled(s, a) && NoneHolds(s) && !(a.By? && a.act.Reserve?)
    ensures Do(s, a).sh.begun == s.sh.begun && NoneHolds(Do(s, a))
  {
    if a.By? {
      AccessPauseLocal(s.max, s.sh, s.pc[a.t], a.act);
    }
  }

  lemma {:induction false} NothingBegins(states: seq<State>, steps: seq<Step>, i: nat, j: nat)
    requires IsRun(states, steps) && i <= j < |states| && NoReserve(steps, i, j) && NoneHolds(states[i])
    ensures states[j].sh.begun == states[i].sh.begun && NoneHolds(states[j])
  {
    if i < j {
      NothingBegins(states, steps, i, j - 1);
      NothingBeginsStep(states[j - 1], steps[j - 1]);
    }
  }

  /**
   * A flush whose attempt saw no request pending at i, at a moment when nobody
   * held a slot, and before which nobody reserved one, leaves none pending.
   */
  lemma {:induction false} QuietFlushLeavesNonePending(states: seq<State>, steps: seq<Step>, i: nat, j: nat)
    requires IsRun(states, steps) && i <= j < |steps| && states[j].sh.wins < states[j + 1].sh.wins
    requires NoneHolds(states[i]) && NoReserve(steps, i, j)
    requires steps[j].By? && steps[j].t in states[j].pc
    requires states[j].pc[steps[j].t].Owner? && states[j].pc[steps[j].t].begun == states[i].sh.begun
    ensures states[j].sh.asyncPending == 0
  {
    NothingBegins(states, steps, i, j);
    var l := PendingAtFlush(states, steps, j);
    RunSafe(states, steps, j);
  }

  // -------------------------------------------------------------------------
  // Reservations after the flush

  /** Past the load of the state in TrySchedule, and not yet at the slots. */
  predicate PastLoad(p: Pc) {
    p.SawState? || p.SawFree?
  }

  ghost predicate IsPath(states: seq<State>, steps: seq<Step>) {
    && |states| == |steps| + 1
    && forall i :: 0 <= i < |steps| ==> Enabled(states[i], steps[i]) && states[i + 1] == Do(states[i], steps[i])
  }

  /** Some continuation from s makes a TrySchedule of the agent succeed. */
  ghost predicate MayReserve(s: State, t: Agent) {
    exists states: seq<State>, steps: seq<Step> :: IsPath(states, steps) && states[0] == s && HasTask(states[|steps|], t)
  }

  predicate HasTask(s: State, t: Agent) {
    t in s.pc && s.pc[t].Scheduled?
  }

  /** After the flush an agent out of TrySchedule sees a final state there, and takes no slot. */
  lemma {:induction false} StaysOut(s: State, a: Step, t: Agent)
    requires Safe(s) && Enabled(s, a) && s.sh.wins > 0 && t in s.pc && !PastLoad(s.pc[t]) && !HoldsSlot(s.pc[t])
    ensures t in Do(s, a).pc && !PastLoad(Do(s, a).pc[t]) && !HoldsSlot(Do(s, a).pc[t]) && Do(s, a).sh.wins > 0
  {
    if a.By? && a.t == t {
      AccessPauseLocal(s.max, s.sh, s.pc[t], a.act);
    }
    WinsGrow(s, a);
  }

  lemma {:induction false} PathStaysOut(states: seq<State>, steps: seq<Step>, i: nat, t: Agent)
    requires IsPath(states, steps) && i < |states| && Safe(states[0]) && states[0].sh.wins > 0
    requires t in states[0].pc && !PastLoad(states[0].pc[t]) && !HoldsSlot(states[0].pc[t])
    ensures Safe(states[i]) && states[i].sh.wins > 0
    ensures t in states[i].pc && !PastLoad(states[i].pc[t]) && !HoldsSlot(states[i].pc[t])
  {
    if i > 0 {
      PathStaysOut(states, steps, i - 1, t);
      StepSafe(states[i - 1], steps[i - 1]);
      StaysOut(states[i - 1], steps[i - 1], t);
    }
  }

  lemma {:induction false} PathSafe(states: seq<State>, steps: seq<Step>, i: nat)
    requires IsPath(states, steps) && i < |states| && Safe(states[0])
    ensures Safe(states[i]) && states[i].max == states[0].max
  {
    if i > 0 {
      PathSafe(states, steps, i - 1);
      StepSafe(states[i - 1], steps[i - 1]);
    }
  }

  /** Without slots nothing is ever reserved. */
  lemma {:induction false} NoSlotsNoReservation(s: State, t: Agent)
    requires Safe(s) && s.max == 0
    ensures !HasTask(s, t)
  {
    if t in s.pc {
      AllFree(s.max, s.sh, s.pc, t);
    }
  }

  lemma {:induction false} MayReserveFrom(s: State, a: Step, t: Agent)
    requires Enabled(s, a) && MayReserve(Do(s, a), t)
    ensures MayReserve(s, t)
  {
    var states, steps :| IsPath(states, steps) && states[0] == Do(s, a) && HasTask(states[|steps|], t);
    var longer, more := [s] + states, [a] + steps;
    forall i | 0 <= i < |more| ensures Enabled(longer[i], more[i]) && longer[i + 1] == Do(longer[i], more[i]) {
      assert i > 0 ==> longer[i] == states[i - 1] && more[i] == steps[i - 1] && longer[i + 1] == states[i - 1 + 1];
    }
    assert IsPath(longer, more) && longer[|more|] == states[|steps|];
  }

  /** An agent past the load of the state can still reserve, once the node is not held. */
  lemma {:induction false} LateReservation(s: State, t: Agent)
    requires t in s.pc && PastLoad(s.pc[t]) && s.sh.slots > 0 && !s.sh.held
    ensures MayReserve(s, t)
    decreases if s.pc[t].SawState? then 1 else 0
  {
    if s.pc[t].SawState? {
      LateReservation(Do(s, By(t, LoadHeld)), t);
      MayReserveFrom(s, By(t, LoadHeld), t);
    } else {
      var s1 := Do(s, By(t, Reserve));
      var s2 := Do(s1, By(t, Recheck));
      assert IsPath([s2], []) && HasTask([s2][0], t);
      MayReserveFrom(s1, By(t, Recheck), t);
      MayReserveFrom(s, By(t, Reserve), t);
    }
  }

  /**
   * Exactly which calls of TrySchedule can succeed after the flush: those that
   * loaded the state before the transition and had not come to the slots yet.
   */
  lemma {:induction false} ReservesAfterFlushIff(states: seq<State>, steps: seq<Step>, i: nat, t: Agent)
    requires IsRun(states, steps) && i < |steps| && states[i].sh.wins < states[i + 1].sh.wins && t in states[i + 1].pc
    ensures MayReserve(states[i + 1], t) <==> states[0].max > 0 && PastLoad(states[i + 1].pc[t])
  {
    var s := states[i + 1];
    RunSafe(states, steps, i);
    RunSafe(states, steps, i + 1);
    OnlyVerifyWins(states[i], steps[i]);
    AllFree(s.max, s.sh, s.pc, t);
    if s.max > 0 && PastLoad(s.pc[t]) {
      if s.sh.held {
        LateReservation(Do(s, Coord(Release)), t);
        MayReserveFrom(s, Coord(Release), t);
      } else {
        LateReservation(s, t);
      }
    } else if MayReserve(s, t) {
      var path, more :| IsPath(path, more) && path[0] == s && HasTask(path[|more|], t);
      if s.max == 0 {
        PathSafe(path, more, |more|);
        NoSlotsNoReservation(path[|more|], t);
      } else {
        PathStaysOut(path, more, |more|, t);
      }
    }
  }

  // -------------------------------------------------------------------------
  // Two runs that the comments in the source do not lead one to expect

  /** A run told step by step. */
  datatype History = Begin(s: State) | Then(before: History, a: Step)

  ghost predicate Leads(h: History, s: State) {
    match h
    case Begin(r) => Init(r) && s == r
    case Then(before, a) => Leads(before, Last(before)) && Enabled(Last(before), a) && s == Do(Last(before), a)
  }

  ghost function Last(h: History): State {
    match h
    case Begin(r) => r
    case Then(before, a) => if Enabled(Last(before), a) then Do(Last(before), a) else Last(before)
  }

  lemma {:induction false} HistoryIsRun(h: History, s: State) returns (states: seq<State>, steps: seq<Step>)
    requires Leads(h, s)
    ensures IsRun(states, steps) && states[|steps|] == s
    decreases h
  {
    match h
    case Begin(_) =>
      states, steps := [s], [];
    case Then(before, a) =>
      states, steps := HistoryIsRun(before, Last(before));
      OneMore(states, steps, a);
      states, steps := states + [s], steps + [a];
  }

  lemma {:induction false} OneMore(states: seq<State>, steps: seq<Step>, a: Step)
    requires IsRun(states, steps) && Enabled(states[|steps|], a)
    ensures IsRun(states + [Do(states[|steps|], a)], steps + [a])
  {
  }

  predicate Two(s: State, p: Pc, q: Pc) {
    0 in s.pc && 1 in s.pc && s.pc[0] == p && s.pc[1] == q
  }

  lemma {:induction false} Fresh() returns (h: History, s: State)
    ensures Leads(h, s) && Init(s) && s.max == 1 && Two(s, Idle, Idle)
  {
    s := State(1, Shared(1, 0, 0, 0, false, Ready, 0, 0), map[0 := Idle, 1 := Idle], Free);
    h := Begin(s);
  }

  lemma {:induction false} LeadsToLast(h: History, s: State)
    requires Leads(h, s)
    ensures Last(h) == s
  {
  }

  lemma {:induction false} Take(h: History, s: State, t: Agent, a: Act) returns (h': History, s': State)
    requires Leads(h, s) && t in s.pc && From(s.pc[t], a)
    ensures Leads(h', s') && s'.max == s.max
    ensures s'.sh == Access(s.max, s.sh, s.pc[t], a)
    ensures s'.pc == s.pc[t := NextPc(s.max, s.sh, s.pc[t], a)]
  {
    LeadsToLast(h, s);
    h', s' := Then(h, By(t, a)), Do(s, By(t, a));
  }

  /** Agent 0 starts an attempt to drain and sees neither a call nor a request. */
  lemma {:induction false} Attempt(h: History, s: State, q: Pc) returns (h': History, s': State)
    requires Leads(h, s) && Two(s, Idle, q) && s.sh.inFlight == 0 && s.sh.asyncPending == 0
    ensures Leads(h', s') && Two(s', SawNoAsync(false, s.sh.begun), q) && s'.sh == s.sh && s'.max == s.max
  {
    h', s' := Take(h, s, 0, LoadInFlight);
    h', s' := Take(h', s', 0, LoadAsync);
  }

  /** The attempt goes on to win, every slot being free. */
  lemma {:induction false} Finish(h: History, s: State, q: Pc) returns (h': History, s': State)
    requires Leads(h, s) && Two(s, SawNoAsync(false, 0), q) && s.sh.slots == s.max && s.sh.state == Ready
    ensures Leads(h', s') && Two(s', Idle, q) && s'.max == s.max
    ensures s'.sh == s.sh.(state := Draining, wins := s.sh.wins + 1)
  {
    h', s' := Take(h, s, 0, LoadSlots);
    h', s' := Take(h', s', 0, CasDraining);
    h', s' := Take(h', s', 0, Verify);
  }

  /** Agent 1 gets as far as the CAS on the slots. */
  lemma {:induction false} AboutToReserve() returns (h: History, s: State)
    ensures Leads(h, s) && Two(s, Idle, SawFree) && s.max == 1 && s.sh == Shared(1, 0, 0, 0, false, Ready, 0, 0)
  {
    h, s := Fresh();
    h, s := Take(h, s, 1, LoadState);
    h, s := Take(h, s, 1, LoadHeld);
  }

  lemma {:induction false} ReserveSlot(h: History, s: State) returns (h': History, s': State)
    requires Leads(h, s) && Two(s, Idle, SawFree) && s.sh.slots == 1 && !s.sh.held
    ensures Leads(h', s') && Two(s', Idle, Scheduled) && s'.max == s.max && s'.sh == s.sh.(slots := 0)
  {
    h', s' := Take(h, s, 1, Reserve);
    h', s' := Take(h', s', 1, Recheck);
  }

  /**
   * TrySchedule can still succeed after the flush was won, when it loaded the
   * state before the transition and reserved after the second look at the
   * slots. Only the state gate of the turn keeps such a task from a call.
   */
  lemma {:induction false} ReservedAfterFlush() returns (h: History, s: State)
    ensures Leads(h, s) && s.sh.wins == 1 && Two(s, Idle, Scheduled)
  {
    h, s := AboutToReserve();
    h, s := Attempt(h, s, SawFree);
    h, s := Finish(h, s, SawFree);
    h, s := ReserveSlot(h, s);
  }

  /** Agent 1 passes the gates of its turn. */
  lemma {:induction false} AdmittedTurn() returns (h: History, s: State)
    ensures Leads(h, s) && Two(s, Idle, Checked) && s.max == 1
    ensures s.sh == Shared(0, 0, 0, 1, false, Ready, 0, 0)
  {
    h, s := AboutToReserve();
    h, s := ReserveSlot(h, s);
    h, s := Take(h, s, 1, EnterBusy);
    h, s := Take(h, s, 1, CheckState);
    h, s := Take(h, s, 1, CheckHeld);
  }

  /** Agent 1 submits one asynchronous request in its call. */
  lemma {:induction false} SubmitRequest(h: History, s: State, p: Pc) returns (h': History, s': State)
    requires Leads(h, s) && Two(s, p, Checked) && s.max == 1 && s.sh == Shared(0, 0, 0, 1, false, Ready, 0, 0)
    ensures Leads(h', s') && Two(s', p, Invoked) && s'.max == 1 && s'.sh == Shared(0, 1, 1, 1, false, Running, 0, 1)
  {
    h', s' := Take(h, s, 1, BeginInvoke);
    h', s' := Take(h', s', 1, MarkRunning);
    h', s' := Take(h', s', 1, BeginAsync);
  }

  lemma {:induction false} EndCall(h: History, s: State, p: Pc) returns (h': History, s': State)
    requires Leads(h, s) && Two(s, p, Invoked) && s.max == 1 && s.sh == Shared(0, 1, 1, 1, false, Running, 0, 1)
    ensures Leads(h', s') && Two(s', p, After) && s'.max == 1 && s'.sh == Shared(1, 0, 1, 1, false, Ready, 0, 1)
  {
    h', s' := Take(h, s, 1, EndInvoke);
    h', s' := Take(h', s', 1, ReturnSlot);
    h', s' := Take(h', s', 1, MarkReady);
  }

  /**
   * The flush can be won with an asynchronous request pending: the load of the
   * pending count is not repeated after the transition.
   */
  lemma {:induction false} FlushWithRequestPending() returns (h: History, s: State)
    ensures Leads(h, s) && s.sh.wins == 1 && s.sh.asyncPending == 1
  {
    h, s := AdmittedTurn();
    h, s := Attempt(h, s, Checked);
    h, s := SubmitRequest(h, s, SawNoAsync(false, 0));
    h, s := EndCall(h, s, SawNoAsync(false, 0));
    h, s := Finish(h, s, After);
  }
}
