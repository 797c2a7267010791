/**
 * What the calls of the slot protocol do when nothing interferes: the partner
 * of the invariants in NodeScheduling, which hold under any interference.
 */
module SoloCalls {
  import opened NodeScheduling

  /** One call makes these accesses in turn, up to the first that it does not reach. */
  function Alone(max: nat, sh: Shared, p: Pc, acts: seq<Act>): (Shared, Pc)
    decreases acts
  {
    if acts == [] || !From(p, acts[0]) then (sh, p)
    else Alone(max, Access(max, sh, p, acts[0]), NextPc(max, sh, p, acts[0]), acts[1..])
  }

  lemma {:induction false} AloneNext(max: nat, sh: Shared, p: Pc, a: Act, acts: seq<Act>)
    requires From(p, a)
    ensures Alone(max, sh, p, [a] + acts) == Alone(max, Access(max, sh, p, a), NextPc(max, sh, p, a), acts)
  {
    assert ([a] + acts)[1..] == acts;
  }

  /** TrySchedule succeeds exactly on a schedulable node that is not held and has a free slot. */
  lemma {:induction false} TryScheduleAlone(max: nat, sh: Shared)
    ensures Alone(max, sh, Idle, [LoadState, LoadHeld, Reserve, Recheck]) ==
            if (sh.state == Ready || sh.state == Running) && !sh.held && sh.slots > 0
            then (sh.(slots := sh.slots - 1), Scheduled) else (sh, Idle)
  {
    assert [LoadState, LoadHeld, Reserve, Recheck] == [LoadState] + [LoadHeld, Reserve, Recheck];
    AloneNext(max, sh, Idle, LoadState, [LoadHeld, Reserve, Recheck]);
    if Schedulable(sh.state) {
      assert [LoadHeld, Reserve, Recheck] == [LoadHeld] + [Reserve, Recheck];
      AloneNext(max, sh, SawState, LoadHeld, [Reserve, Recheck]);
      assert [Reserve, Recheck] == [Reserve] + ([Recheck] + []);
      AloneNext(max, sh, SawFree, Reserve, [Recheck] + []);
      AloneNext(max, sh.(slots := sh.slots - 1), Reserved, Recheck, []);
    }
  }

  /** TryEnterDraining wins exactly on an idle, ready node without calls or requests; else it changes nothing. */
  lemma {:induction false} TryEnterDrainingAlone(max: nat, sh: Shared, inTurn: bool)
    ensures Alone(max, sh, Outside(inTurn), [LoadInFlight, LoadAsync, LoadSlots, CasDraining, Verify]) ==
            if sh.inFlight == 0 && sh.asyncPending == 0 && sh.slots == max && sh.state == Ready
            then (sh.(state := Draining, wins := sh.wins + 1), Outside(inTurn)) else (sh, Outside(inTurn))
  {
    var rest := [LoadAsync, LoadSlots, CasDraining, Verify];
    assert [LoadInFlight, LoadAsync, LoadSlots, CasDraining, Verify] == [LoadInFlight] + rest;
    AloneNext(max, sh, Outside(inTurn), LoadInFlight, rest);
    if sh.inFlight == 0 {
      assert rest == [LoadAsync] + [LoadSlots, CasDraining, Verify];
      AloneNext(max, sh, SawNoCall(inTurn), LoadAsync, [LoadSlots, CasDraining, Verify]);
      if sh.asyncPending == 0 {
        DrainFromSlots(max, sh, inTurn);
      }
    }
  }

  lemma {:induction false} DrainFromSlots(max: nat, sh: Shared, inTurn: bool)
    ensures Alone(max, sh, SawNoAsync(inTurn, sh.begun), [LoadSlots, CasDraining, Verify]) ==
            if sh.slots == max && sh.state == Ready
            then (sh.(state := Draining, wins := sh.wins + 1), Outside(inTurn)) else (sh, Outside(inTurn))
  {
    assert [LoadSlots, CasDraining, Verify] == [LoadSlots] + ([CasDraining] + ([Verify] + []));
    AloneNext(max, sh, SawNoAsync(inTurn, sh.begun), LoadSlots, [CasDraining] + ([Verify] + []));
    AloneNext(max, sh, SawSlots(inTurn, sh.begun), CasDraining, [Verify] + []);
    AloneNext(max, sh.(state := Draining), Owner(inTurn, sh.begun), Verify, []);
  }

  function Gates(): seq<Act> {
    [EnterBusy, CheckState, CheckHeld]
  }

  function Call(): seq<Act> {
    [BeginInvoke, MarkRunning, EndInvoke]
  }

  /**
   * A turn that passes the gates returns its slot, leaves no trace in the other
   * counters, and leaves the node ready unless other calls are running.
   */
  lemma {:induction false} TurnAlone(max: nat, sh: Shared)
    requires Schedulable(sh.state) && !sh.held
    ensures Alone(max, sh, Scheduled, Gates() + (Call() + [ReturnSlot, MarkReady, LeaveBusy]))
         == (sh.(slots := sh.slots + 1, state := if sh.inFlight == 0 then Ready else Running), Idle)
  {
    var end := [ReturnSlot, MarkReady, LeaveBusy];
    GatesAlone(max, sh, Call() + end);
    CallAlone(max, sh.(busy := sh.busy + 1), end);
    EndAlone(max, sh.(busy := sh.busy + 1, state := Running), sh.inFlight);
  }

  lemma {:induction false} GatesAlone(max: nat, sh: Shared, acts: seq<Act>)
    requires Schedulable(sh.state)
    ensures Alone(max, sh, Scheduled, Gates() + acts)
         == Alone(max, sh.(busy := sh.busy + 1), if sh.held then CancelEarly else Checked, acts)
  {
    var sh1 := sh.(busy := sh.busy + 1);
    assert Gates() + acts == [EnterBusy] + ([CheckState] + ([CheckHeld] + acts));
    AloneNext(max, sh, Scheduled, EnterBusy, [CheckState] + ([CheckHeld] + acts));
    AloneNext(max, sh1, Entered, CheckState, [CheckHeld] + acts);
    AloneNext(max, sh1, Gated, CheckHeld, acts);
  }

  lemma {:induction false} CallAlone(max: nat, sh: Shared, acts: seq<Act>)
    requires Schedulable(sh.state)
    ensures Alone(max, sh, Checked, Call() + acts)
         == Alone(max, sh.(state := Running), Ended(sh.inFlight), acts)
  {
    var sh1 := sh.(inFlight := sh.inFlight + 1);
    assert Call() + acts == [BeginInvoke] + ([MarkRunning] + ([EndInvoke] + acts));
    AloneNext(max, sh, Checked, BeginInvoke, [MarkRunning] + ([EndInvoke] + acts));
    AloneNext(max, sh1, Invoking, MarkRunning, [EndInvoke] + acts);
    AloneNext(max, sh1.(state := Running), Invoked, EndInvoke, acts);
  }

  lemma {:induction false} EndAlone(max: nat, sh: Shared, left: int)
    requires sh.state.Running?
    ensures Alone(max, sh, Ended(left), [ReturnSlot, MarkReady, LeaveBusy])
         == (sh.(slots := sh.slots + 1, busy := sh.busy - 1, state := if left == 0 then Ready else Running), Idle)
  {
    var sh1 := sh.(slots := sh.slots + 1);
    assert [ReturnSlot, MarkReady, LeaveBusy] == [ReturnSlot] + ([MarkReady] + ([LeaveBusy] + []));
    AloneNext(max, sh, Ended(left), ReturnSlot, [MarkReady] + ([LeaveBusy] + []));
    AloneNext(max, sh1, Returned(left), MarkReady, [LeaveBusy] + []);
    AloneNext(max, sh1.(state := if left == 0 then Ready else Running), After, LeaveBusy, []);
  }

  /** A turn that finds its node held or unschedulable returns the slot and does nothing else. */
  lemma {:induction false} HeldTurnAlone(max: nat, sh: Shared)
    requires Schedulable(sh.state) && sh.held
    ensures Alone(max, sh, Scheduled, Gates() + [CancelGate, LeaveBusy])
         == (sh.(slots := sh.slots + 1), Idle)
  {
    GatesAlone(max, sh, [CancelGate, LeaveBusy]);
    CancelAlone(max, sh.(busy := sh.busy + 1));
  }

  lemma {:induction false} UnschedulableTurnAlone(max: nat, sh: Shared)
    requires !Schedulable(sh.state)
    ensures Alone(max, sh, Scheduled, [EnterBusy, CheckState, CancelGate, LeaveBusy])
         == (sh.(slots := sh.slots + 1), Idle)
  {
    assert [EnterBusy, CheckState, CancelGate, LeaveBusy] == [EnterBusy] + ([CheckState] + [CancelGate, LeaveBusy]);
    AloneNext(max, sh, Scheduled, EnterBusy, [CheckState] + [CancelGate, LeaveBusy]);
    AloneNext(max, sh.(busy := sh.busy + 1), Entered, CheckState, [CancelGate, LeaveBusy]);
    CancelAlone(max, sh.(busy := sh.busy + 1));
  }

  lemma {:induction false} CancelAlone(max: nat, sh: Shared)
    ensures Alone(max, sh, CancelEarly, [CancelGate, LeaveBusy])
         == (sh.(slots := sh.slots + 1, busy := sh.busy - 1), Idle)
  {
    assert [CancelGate, LeaveBusy] == [CancelGate] + ([LeaveBusy] + []);
    AloneNext(max, sh, CancelEarly, CancelGate, [LeaveBusy] + []);
    AloneNext(max, sh.(slots := sh.slots + 1), Leaving, LeaveBusy, []);
  }

  /**
   * The coordinator's pause: with nobody in a turn and all slots free it is
   * granted at the first look, otherwise not; releasing it leaves no trace.
   */
  lemma {:induction false} PauseAlone(s: State)
    requires s.pause == Free && !s.sh.held
    ensures Enabled(s, Coord(Hold))
    ensures var held := Do(s, Coord(Hold));
            && held.sh == s.sh.(held := true) && Enabled(held, Coord(LoadBusy))
            && var seen := Do(held, Coord(LoadBusy));
               && (Enabled(seen, Coord(LoadQuiet)) <==> s.sh.busy == 0)
               && (s.sh.busy == 0 ==> (Do(seen, Coord(LoadQuiet)).pause == Quiet <==> s.sh.slots == s.max))
               && Enabled(seen, Coord(Release)) && Do(seen, Coord(Release)) == s
  {
  }
}
