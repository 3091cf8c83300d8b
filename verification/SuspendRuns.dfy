/** Runs of the suspend/resume protocol that show what cannot be promised, built step by step. */
module SuspendRuns {
  import opened Wrappers
  import opened SuspendProtocol
  import opened SuspendTraffic
  import opened SuspendTheorems

  /** Some run leads to `s`; with `alone`, one with a single caller. */
  ghost predicate Reachable(s: State, alone: bool) {
    exists steps :: Run(INITIAL, steps) == Some(s) && (alone ==> SingleCaller(steps))
  }

  function StepTo(s: State, a: Step): State {
    State(ControlStep(s, a), TrafficStep(s, a))
  }

  /** `p` holds at the start and is kept by every step; with `alone`, by every step of a run with a single caller. */
  ghost predicate Closed(p: State -> bool, alone: bool) {
    p(INITIAL) && forall s, a {:trigger StepTo(s, a)} | p(s) && Enabled(s.c, a) && (alone ==> !IsOutside(a)) :: p(StepTo(s, a))
  }

  lemma {:induction false} RunExtends(steps: seq<Step>, s: State, a: Step, alone: bool)
    requires Run(INITIAL, steps) == Some(s) && Enabled(s.c, a)
    requires alone ==> SingleCaller(steps) && !IsOutside(a)
    ensures Run(INITIAL, steps + [a]) == Some(StepTo(s, a))
    ensures alone ==> SingleCaller(steps + [a])
  {
    assert (steps + [a])[..|steps|] == steps;
  }

  lemma ReachableClosed(alone: bool)
    ensures Closed(s => Reachable(s, alone), alone)
  {
    assert Run(INITIAL, []) == Some(INITIAL) && SingleCaller([]);
    forall s, a | Reachable(s, alone) && Enabled(s.c, a) && (alone ==> !IsOutside(a))
      ensures Reachable(StepTo(s, a), alone)
    {
      var steps :| Run(INITIAL, steps) == Some(s) && (alone ==> SingleCaller(steps));
      RunExtends(steps, s, a, alone);
    }
  }

  lemma NextEntry(p: State -> bool, alone: bool, s: State, a: Step) returns (r: State)
    requires Closed(p, alone) && p(s) && IsEntry(a) && s.c.pc == EntryPc(a)
    requires a.InactivityDone? ==> a.status == Success || a.status == InactivityTimeout || a.status == BadArgs
    ensures p(r) && r == State(EntryStep(s.c, a), s.t)
  {
    r := StepTo(s, a);
  }

  /** The inactivity wait has ended one way or the other. */
  lemma NextOutcome(p: State -> bool, alone: bool, s: State, status: Status) returns (r: State)
    requires Closed(p, alone) && p(s) && s.c.pc == AtInactivity && (status == Success || status == InactivityTimeout)
    ensures p(r) && r.t == s.t
    ensures r.c == Control(if status == Success then AtSuspend else AtFinalUnlock, status, s.c.suspended, s.c.core,
                           s.c.deepSleepLocks, s.c.callback, false, false, s.c.offloadsAsleep, s.c.mutexHeld, s.c.outside)
  {
    r := NextEntry(p, alone, s, InactivityDone(status));
  }

  /** The wait for activity has been ended by some. */
  lemma NextAwoken(p: State -> bool, alone: bool, s: State) returns (r: State)
    requires Closed(p, alone) && p(s) && s.c.pc == AtWait && (s.c.rxEvent || s.c.txEvent)
    ensures p(r) && r.t == s.t
    ensures r.c == Control(AtMutex, NetActivity, s.c.suspended, s.c.core, s.c.deepSleepLocks, s.c.callback, false, false,
                           s.c.offloadsAsleep, s.c.mutexHeld, s.c.outside)
  {
    r := NextWake(p, alone, s, WaitDone(false));
  }

  /** The calling thread has set the suspended flag. */
  lemma NextSuspended(p: State -> bool, alone: bool, s: State) returns (r: State)
    requires Closed(p, alone) && p(s) && s.c.pc == AtSuspendFlag
    ensures p(r) && r.t == s.t
    ensures r.c == Control(AtRegister, Success, true, s.c.core, s.c.deepSleepLocks, s.c.callback, s.c.rxEvent, s.c.txEvent,
                           s.c.offloadsAsleep, s.c.mutexHeld, s.c.outside)
  {
    r := NextSuspend(p, alone, s, SuspendSetFlag);
  }

  lemma NextSuspend(p: State -> bool, alone: bool, s: State, a: Step) returns (r: State)
    requires Closed(p, alone) && p(s) && IsSuspend(a) && s.c.pc == SuspendPc(a)
    requires a.LockCore? ==> s.c.core == Free
    ensures p(r) && r == State(SuspendStep(s.c, a), s.t)
  {
    r := StepTo(s, a);
  }

  lemma NextSleep(p: State -> bool, alone: bool, s: State, a: Step) returns (r: State)
    requires Closed(p, alone) && p(s) && IsSleep(a) && s.c.pc == SleepPc(a)
    ensures p(r) && r == State(SleepStep(s.c, a), s.t)
  {
    r := StepTo(s, a);
  }

  lemma NextWake(p: State -> bool, alone: bool, s: State, a: Step) returns (r: State)
    requires Closed(p, alone) && p(s) && IsWake(a) && s.c.pc == WakePc(a)
    requires a.WaitDone? ==> a.timeout || s.c.rxEvent || s.c.txEvent
    ensures p(r) && r == State(WakeStep(s.c, a), s.t)
  {
    r := StepTo(s, a);
  }

  lemma NextReturn(p: State -> bool, alone: bool, s: State, a: Step) returns (r: State)
    requires Closed(p, alone) && p(s) && IsReturn(a) && s.c.pc == ReturnPc(a)
    ensures p(r) && r == State(ReturnStep(s.c, a), s.t)
  {
    r := StepTo(s, a);
  }

  lemma NextDrain(p: State -> bool, alone: bool, s: State, a: Step) returns (r: State)
    requires Closed(p, alone) && p(s) && IsDrain(a) && s.c.pc == DrainPc(a)
    ensures p(r) && r.c == DrainStep(s.c, a, s.t.queue == [])
    ensures r.t == if a.DrainNext? then PopStep(s.t) else if a.InputDone? then InputStep(s.t, a.taken) else s.t
  {
    r := StepTo(s, a);
  }

  lemma NextPop(p: State -> bool, alone: bool, s: State) returns (r: State)
    requires Closed(p, alone) && p(s) && s.c.pc == AtDrain && s.t.queue != [] && s.t.inHand == []
    ensures p(r) && r.c == s.c.(pc := AtInput)
    ensures r.t == s.t.(queue := s.t.queue[1..], inHand := [s.t.queue[0]], popped := s.t.popped + [s.t.queue[0]])
  {
    r := NextDrain(p, alone, s, DrainNext);
  }

  lemma NextTaken(p: State -> bool, alone: bool, s: State, b: nat) returns (r: State)
    requires Closed(p, alone) && p(s) && s.c.pc == AtInput && s.t.inHand == [b]
    ensures p(r) && r.c == s.c.(pc := AtDrain)
    ensures r.t == s.t.(inHand := [], offered := s.t.offered + [b], given := s.t.given + [b])
  {
    r := NextDrain(p, alone, s, InputDone(true));
  }

  lemma NextRefused(p: State -> bool, alone: bool, s: State, b: nat) returns (r: State)
    requires Closed(p, alone) && p(s) && s.c.pc == AtInput && s.t.inHand == [b]
    ensures p(r) && r.c == s.c.(pc := AtDrain)
    ensures r.t == s.t.(inHand := [], offered := s.t.offered + [b], released := s.t.released + [b])
  {
    r := NextDrain(p, alone, s, InputDone(false));
  }

  lemma NextOther(p: State -> bool, alone: bool, s: State, a: Step) returns (r: State)
    requires Closed(p, alone) && p(s) && IsOther(a) && !IsOutside(a) && !a.Arrive?
    requires (a.StackLocks? ==> s.c.core == Free) && (a.StackUnlocks? ==> s.c.core == Stack)
    ensures p(r) && r == State(OtherStep(s.c, a), s.t)
  {
    r := StepTo(s, a);
  }

  lemma NextOutside(p: State -> bool, s: State, a: Step) returns (r: State)
    requires Closed(p, false) && p(s) && IsOutside(a) && OutsideEnabled(s.c, a)
    ensures p(r) && r == State(OutsideStep(s.c, a), s.t)
  {
    r := StepTo(s, a);
  }

  lemma NextArrival(p: State -> bool, alone: bool, s: State, accepted: bool) returns (r: State)
    requires Closed(p, alone) && p(s)
    ensures p(r) && r == State(s.c, ArriveStep(s.t, s.c.callback, accepted))
  {
    assert Enabled(s.c, Arrive(accepted));
    r := StepTo(s, Arrive(accepted));
  }

  // Moments of one call. Control fields in order: pc, result, suspended, core, deepSleepLocks, callback,
  // rxEvent, txEvent, offloadsAsleep, mutexHeld, outside.

  const SUSPENDED: State :=
    State(Control(AtNotifySuspended, Success, true, Handler, 1, true, false, false, false, false, OutIdle),
          Traffic([], [], 0, [], [], [], [], [], false))
  const ASLEEP: State :=
    State(Control(AtWait, Success, true, Handler, 0, true, false, false, true, false, OutIdle),
          Traffic([], [], 0, [], [], [], [], [], false))
  const QUEUED: State :=
    State(Control(AtWait, Success, true, Handler, 0, true, false, false, true, false, OutIdle),
          Traffic([0], [], 1, [0], [], [], [], [], false))
  const WOKEN: State :=
    State(Control(AtDispatchAwake, WaitTimeout, true, Handler, 1, true, false, false, true, true, OutIdle),
          Traffic([0], [], 1, [0], [], [], [], [], false))
  const DRAINING: State :=
    State(Control(AtDrain, WaitTimeout, true, Handler, 1, false, false, false, false, true, OutIdle),
          Traffic([0], [], 1, [0], [], [], [], [], false))
  const OVERTAKEN: State :=
    State(Control(AtDrain, WaitTimeout, true, Handler, 1, false, false, false, false, true, OutIdle),
          Traffic([0], [], 2, [0], [], [1], [1], [], true))
  const POPPED: State :=
    State(Control(AtInput, WaitTimeout, true, Handler, 1, false, false, false, false, true, OutIdle),
          Traffic([], [0], 2, [0], [0], [1], [1], [], true))
  const OFFERED: State :=
    State(Control(AtDrain, WaitTimeout, true, Handler, 1, false, false, false, false, true, OutIdle),
          Traffic([], [], 2, [0], [0], [1, 0], [1, 0], [], true))
  const RESUMING: State :=
    State(Control(AtResume, WaitTimeout, true, Handler, 1, false, false, false, false, true, OutIdle),
          Traffic([], [], 2, [0], [0], [1, 0], [1, 0], [], true))
  const RETURNED: State :=
    State(Control(Idle, WaitTimeout, false, Free, 0, false, false, false, false, false, OutIdle),
          Traffic([], [], 2, [0], [0], [1, 0], [1, 0], [], true))

  lemma Suspend(p: State -> bool, alone: bool)
    requires Closed(p, alone)
    ensures p(SUSPENDED)
  {
    var s := NextEntry(p, alone, INITIAL, Call(true));
    s := NextEntry(p, alone, s, LockDs);
    s := NextEntry(p, alone, s, InactivityDone(Success));
    s := NextSuspend(p, alone, s, SuspendTest);
    s := NextSuspend(p, alone, s, LockCore);
    s := NextSuspend(p, alone, s, SuspendSetFlag);
    s := NextSuspend(p, alone, s, Register);
    s := NextSuspend(p, alone, s, Branch);
    assert s == SUSPENDED;
  }

  lemma AllowSleep(p: State -> bool, alone: bool)
    requires Closed(p, alone) && p(SUSPENDED)
    ensures p(ASLEEP)
  {
    var s := NextSleep(p, alone, SUSPENDED, NotifySuspended);
    s := NextSleep(p, alone, s, ClearEvents);
    s := NextSleep(p, alone, s, DispatchSleep);
    s := NextSleep(p, alone, s, UnlockDs);
    assert s == ASLEEP;
  }

  lemma WakeUp(p: State -> bool, alone: bool)
    requires Closed(p, alone) && p(QUEUED)
    ensures p(WOKEN)
  {
    var s := NextWake(p, alone, QUEUED, WaitDone(true));
    s := NextWake(p, alone, s, TakeMutex(true));
    s := NextWake(p, alone, s, RelockDs);
    s := NextWake(p, alone, s, NotifyResuming(false));
    assert s == WOKEN;
  }

  lemma StartDrain(p: State -> bool, alone: bool)
    requires Closed(p, alone) && p(WOKEN)
    ensures p(DRAINING)
  {
    var s := NextDrain(p, alone, WOKEN, DispatchAwake);
    s := NextDrain(p, alone, s, Deregister);
    assert s == DRAINING;
  }

  lemma Pop(p: State -> bool, alone: bool)
    requires Closed(p, alone) && p(OVERTAKEN)
    ensures p(POPPED)
  {
    var s := NextDrain(p, alone, OVERTAKEN, DrainNext);
    assert s.t == POPPED.t;
  }

  lemma Offer(p: State -> bool, alone: bool)
    requires Closed(p, alone) && p(POPPED)
    ensures p(OFFERED)
  {
    var s := NextDrain(p, alone, POPPED, InputDone(true));
    assert s.t == OFFERED.t;
  }

  lemma LeaveDrain(p: State -> bool, alone: bool)
    requires Closed(p, alone) && p(OFFERED)
    ensures p(RESUMING)
  {
    var s := NextDrain(p, alone, OFFERED, DrainNext);
    assert s.t == RESUMING.t;
  }

  lemma Return(p: State -> bool, alone: bool)
    requires Closed(p, alone) && p(RESUMING)
    ensures p(RETURNED)
  {
    var s := NextReturn(p, alone, RESUMING, ResumeTest);
    s := NextReturn(p, alone, s, ResumeClearFlag);
    s := NextReturn(p, alone, s, SetMutex);
    s := NextReturn(p, alone, s, FinalUnlock);
    assert s == RETURNED;
  }

  lemma Arrivals(p: State -> bool, alone: bool)
    requires Closed(p, alone)
    ensures p(ASLEEP) ==> p(QUEUED)
    ensures p(DRAINING) ==> p(OVERTAKEN)
  {
    if p(ASLEEP) {
      var s := NextArrival(p, alone, ASLEEP, true);
      assert s.t == QUEUED.t;
    }
    if p(DRAINING) {
      var s := NextArrival(p, alone, DRAINING, true);
      assert s.t == OVERTAKEN.t;
    }
  }

  lemma WholeCall(p: State -> bool, alone: bool)
    requires Closed(p, alone)
    ensures p(RETURNED)
  {
    Suspend(p, alone);
    AllowSleep(p, alone);
    Arrivals(p, alone);
    WakeUp(p, alone);
    StartDrain(p, alone);
    Pop(p, alone);
    Offer(p, alone);
    LeaveDrain(p, alone);
    Return(p, alone);
  }

  /** Arrival order across the two paths is not kept in general, even with a single caller: a packet that arrives
      while the queue is being drained reaches the stack before one that was queued earlier. */
  lemma OvertakingHappens()
    ensures Reachable(RETURNED, true) && RETURNED.c.pc == Idle && RETURNED.t.offered == [1, 0]
  {
    ReachableClosed(true);
    WholeCall(s => Reachable(s, true), true);
  }

  // ---------------------------------------------------------------- two users of the suspended flag

  const OUTSIDE_SUSPENDED: State :=
    State(Control(Idle, Success, true, Outside, 0, false, false, false, false, false, OutHolding),
          Traffic([], [], 0, [], [], [], [], [], false))
  const REFUSED: State :=
    State(Control(Idle, BadState, true, Outside, 0, true, false, false, false, false, OutHolding),
          Traffic([], [], 0, [], [], [], [], [], false))
  const LEFT_BEHIND: State :=
    State(Control(Idle, BadState, false, Free, 0, true, false, false, false, false, OutIdle),
          Traffic([0], [], 1, [0], [], [], [], [], false))

  lemma OutsideSuspends(p: State -> bool)
    requires Closed(p, false)
    ensures p(OUTSIDE_SUSPENDED)
  {
    var s := NextOutside(p, INITIAL, OutsideTest);
    s := NextOutside(p, s, OutsideLock);
    s := NextOutside(p, s, OutsideSetFlag);
    assert s == OUTSIDE_SUSPENDED;
  }

  lemma CallRefused(p: State -> bool)
    requires Closed(p, false) && p(OUTSIDE_SUSPENDED)
    ensures p(REFUSED)
  {
    var s := NextEntry(p, false, OUTSIDE_SUSPENDED, Call(true));
    s := NextEntry(p, false, s, LockDs);
    s := NextEntry(p, false, s, InactivityDone(Success));
    s := NextSuspend(p, false, s, SuspendTest);
    s := NextSuspend(p, false, s, Register);
    s := NextSuspend(p, false, s, Branch);
    s := NextReturn(p, false, s, FinalUnlock);
    assert s == REFUSED;
  }

  lemma OutsideResumes(p: State -> bool)
    requires Closed(p, false) && p(REFUSED)
    ensures p(LEFT_BEHIND)
  {
    var s := NextOutside(p, REFUSED, OutsideUnlock);
    s := NextOutside(p, s, OutsideClearFlag);
    s := NextArrival(p, false, s, true);
    assert s.t == LEFT_BEHIND.t;
  }

  /** A call made while another thread has the stack suspended leaves the callback registered: when that thread has
      resumed the stack, arriving packets are still queued, and nobody drains the queue. */
  lemma CallbackIsLeft()
    ensures Reachable(LEFT_BEHIND, false)
    ensures LEFT_BEHIND.c.pc == Idle && !LEFT_BEHIND.c.suspended && LEFT_BEHIND.c.callback && LEFT_BEHIND.t.queue == [0]
  {
    ReachableClosed(false);
    var p: State -> bool := s => Reachable(s, false);
    OutsideSuspends(p);
    CallRefused(p);
    OutsideResumes(p);
  }

  const RACED: State :=
    State(Control(AtRegister, Success, false, Handler, 1, false, false, false, false, false, OutIdle),
          Traffic([], [], 0, [], [], [], [], [], false))
  const BOTH_TESTED: State :=
    State(Control(AtLockCore, Success, false, Free, 1, false, false, false, false, false, OutTested),
          Traffic([], [], 0, [], [], [], [], [], false))

  lemma BothTest(p: State -> bool)
    requires Closed(p, false)
    ensures p(BOTH_TESTED)
  {
    var s := NextEntry(p, false, INITIAL, Call(true));
    s := NextEntry(p, false, s, LockDs);
    s := NextEntry(p, false, s, InactivityDone(Success));
    s := NextSuspend(p, false, s, SuspendTest);
    s := NextOutside(p, s, OutsideTest);
    assert s == BOTH_TESTED;
  }

  lemma BothSet(p: State -> bool)
    requires Closed(p, false) && p(BOTH_TESTED)
    ensures p(RACED)
  {
    var s := NextOutside(p, BOTH_TESTED, OutsideLock);
    s := NextOutside(p, s, OutsideSetFlag);
    s := NextOutside(p, s, OutsideUnlock);
    s := NextSuspend(p, false, s, LockCore);
    s := NextSuspend(p, false, s, SuspendSetFlag);
    s := NextOutside(p, s, OutsideClearFlag);
    assert s == RACED;
  }

  const LOCK_KEPT: State :=
    State(Control(Idle, WaitTimeout, false, Handler, 0, false, false, false, false, false, OutIdle),
          Traffic([], [], 0, [], [], [], [], [], false))
  const RACED_ASLEEP: State :=
    State(Control(AtWait, Success, false, Handler, 0, true, false, false, true, false, OutIdle),
          Traffic([], [], 0, [], [], [], [], [], false))
  const RACED_AWAKE: State :=
    State(Control(AtDeregister, WaitTimeout, false, Handler, 1, true, false, false, false, true, OutIdle),
          Traffic([], [], 0, [], [], [], [], [], false))

  lemma RacedSleeps(p: State -> bool)
    requires Closed(p, false) && p(RACED)
    ensures p(RACED_ASLEEP)
  {
    var s := NextSuspend(p, false, RACED, Register);
    s := NextSuspend(p, false, s, Branch);
    s := NextSleep(p, false, s, NotifySuspended);
    s := NextSleep(p, false, s, ClearEvents);
    s := NextSleep(p, false, s, DispatchSleep);
    s := NextSleep(p, false, s, UnlockDs);
    assert s == RACED_ASLEEP;
  }

  lemma RacedWakes(p: State -> bool)
    requires Closed(p, false) && p(RACED_ASLEEP)
    ensures p(RACED_AWAKE)
  {
    var s := NextWake(p, false, RACED_ASLEEP, WaitDone(true));
    s := NextWake(p, false, s, TakeMutex(true));
    s := NextWake(p, false, s, RelockDs);
    s := NextWake(p, false, s, NotifyResuming(false));
    s := NextDrain(p, false, s, DispatchAwake);
    assert s == RACED_AWAKE;
  }

  lemma RacedReturns(p: State -> bool)
    requires Closed(p, false) && p(RACED_AWAKE)
    ensures p(LOCK_KEPT)
  {
    var s := NextDrain(p, false, RACED_AWAKE, Deregister);
    s := NextDrain(p, false, s, DrainNext);
    assert s.t == LOCK_KEPT.t;
    s := NextReturn(p, false, s, ResumeTest);
    s := NextReturn(p, false, s, SetMutex);
    s := NextReturn(p, false, s, FinalUnlock);
    assert s == LOCK_KEPT;
  }

  /** The safety of the flag needs a single caller: testing the flag and taking the lock are two statements, and so
      are releasing the lock and clearing the flag, so that two users can leave the caller holding the core lock with
      the flag clear. The call then returns without releasing the lock. */
  lemma SingleCallerNeeded()
    ensures Reachable(RACED, false) && !Safe(RACED.c, RACED.t)
    ensures Reachable(LOCK_KEPT, false) && LOCK_KEPT.c.pc == Idle && LOCK_KEPT.c.core == Handler
  {
    ReachableClosed(false);
    var p: State -> bool := s => Reachable(s, false);
    BothTest(p);
    BothSet(p);
    RacedSleeps(p);
    RacedWakes(p);
    RacedReturns(p);
  }
}
