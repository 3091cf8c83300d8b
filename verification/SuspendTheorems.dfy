/** What holds over every run of the suspend/resume protocol. */
module SuspendTheorems {
  import opened Wrappers
  import opened SuspendProtocol
  import opened SuspendTraffic

  ghost predicate Inv(s: State) {
    ControlInv(s.c) && TrafficInv(s)
  }

  lemma InitialInv()
    ensures Inv(INITIAL) && AloneInv(INITIAL.c)
  {
  }

  lemma InvKept(s: State, a: Step)
    requires Inv(s) && Enabled(s.c, a)
    ensures Inv(Apply(s, a).value)
  {
    ControlInvKept(s, a);
    TrafficInvKept(s, a);
  }

  lemma {:induction false} InvOnRuns(s: State, steps: seq<Step>, r: State)
    requires Inv(s) && Run(s, steps) == Some(r)
    ensures Inv(r)
  {
    if steps != [] {
      var n := |steps| - 1;
      var before := Run(s, steps[..n]).value;
      InvOnRuns(s, steps[..n], before);
      InvKept(before, steps[n]);
    }
  }

  lemma {:induction false} RunKeepsInv(steps: seq<Step>, s: State)
    requires Run(INITIAL, steps) == Some(s)
    ensures Inv(s)
  {
    InitialInv();
    InvOnRuns(INITIAL, steps, s);
  }

  /** Nothing but the calling thread uses `cylpa_suspend_ns` and `cylpa_resume_ns`. */
  predicate SingleCaller(steps: seq<Step>) {
    forall i | 0 <= i < |steps| :: !IsOutside(steps[i])
  }

  lemma {:induction false} RunKeepsAlone(steps: seq<Step>, s: State)
    requires Run(INITIAL, steps) == Some(s) && SingleCaller(steps)
    ensures AloneInv(s.c)
  {
    if steps == [] {
      InitialInv();
    } else {
      var n := |steps| - 1;
      var before := Run(INITIAL, steps[..n]).value;
      RunKeepsAlone(steps[..n], before);
      AloneInvKept(before, steps[n]);
    }
  }

  // ---------------------------------------------------------------- the core lock

  /** Some test of the suspended flag before releasing the core lock found the flag clear. */
  predicate FoundClear(steps: seq<Step>) {
    if steps == [] then false
    else
      var before := steps[..|steps| - 1];
      FoundClear(before)
      || (steps[|steps| - 1].ResumeTest? && Run(INITIAL, before).Some? && !Run(INITIAL, before).value.c.suspended)
  }

  /** The caller has suspended the stack and not yet resumed it. */
  predicate Holding(c: Control) {
    match c.pc
    case AtSuspendFlag | AtNotifySuspended | AtClear | AtDispatchSleep | AtUnlockDs | AtWait | AtMutex | AtRelockDs
      | AtNotifyResuming | AtDispatchAwake | AtDeregister | AtDrain | AtInput | AtResume => true
    case AtRegister | AtBranch => c.result == Success
    case _ => false
  }

  /** It has the core lock then, and besides only if it failed to release it. */
  predicate CoreInv(c: Control, lost: bool) {
    && ((c.core == Handler) <==> Holding(c) || lost)
    && (Holding(c) ==> !lost)
  }

  lemma CoreEntry(c: Control, a: Step, lost: bool)
    requires CoreInv(c, lost) && IsEntry(a) && c.pc == EntryPc(a)
    ensures CoreInv(EntryStep(c, a), lost)
  {
  }

  lemma CoreSleep(c: Control, a: Step, lost: bool)
    requires CoreInv(c, lost) && IsSleep(a) && c.pc == SleepPc(a)
    ensures CoreInv(SleepStep(c, a), lost)
  {
  }

  lemma CoreWake(c: Control, a: Step, lost: bool)
    requires CoreInv(c, lost) && IsWake(a) && c.pc == WakePc(a)
    ensures CoreInv(WakeStep(c, a), lost)
  {
  }

  lemma CoreSuspend(c: Control, a: Step, lost: bool)
    requires CoreInv(c, lost) && IsSuspend(a) && c.pc == SuspendPc(a) && (a.LockCore? ==> c.core == Free)
    ensures CoreInv(SuspendStep(c, a), lost)
  {
  }

  lemma CoreDrain(c: Control, a: Step, queueEmpty: bool, lost: bool)
    requires CoreInv(c, lost) && IsDrain(a) && c.pc == DrainPc(a)
    ensures CoreInv(DrainStep(c, a, queueEmpty), lost)
  {
  }

  lemma CoreReturn(c: Control, a: Step, lost: bool)
    requires CoreInv(c, lost) && IsReturn(a) && c.pc == ReturnPc(a)
    ensures CoreInv(ReturnStep(c, a), lost || (a.ResumeTest? && !c.suspended))
  {
  }

  lemma CoreOutside(c: Control, a: Step, lost: bool)
    requires CoreInv(c, lost) && IsOutside(a) && OutsideEnabled(c, a)
    ensures CoreInv(OutsideStep(c, a), lost)
  {
  }

  lemma CoreOther(c: Control, a: Step, lost: bool)
    requires CoreInv(c, lost) && IsOther(a) && Enabled(c, a)
    ensures CoreInv(OtherStep(c, a), lost)
  {
    if IsOutside(a) {
      CoreOutside(c, a, lost);
    }
  }

  lemma CoreKept(s: State, a: Step, lost: bool)
    requires CoreInv(s.c, lost) && Enabled(s.c, a)
    ensures CoreInv(ControlStep(s, a), lost || (a.ResumeTest? && !s.c.suspended))
  {
    if IsOther(a) {
      CoreOther(s.c, a, lost);
    } else if IsEntry(a) {
      CoreEntry(s.c, a, lost);
    } else if IsSuspend(a) {
      CoreSuspend(s.c, a, lost);
    } else if IsSleep(a) {
      CoreSleep(s.c, a, lost);
    } else if IsWake(a) {
      CoreWake(s.c, a, lost);
    } else if IsDrain(a) {
      CoreDrain(s.c, a, s.t.queue == [], lost);
    } else {
      CoreReturn(s.c, a, lost);
    }
  }

  lemma {:induction false} CoreOnRuns(steps: seq<Step>, s: State)
    requires Run(INITIAL, steps) == Some(s)
    ensures CoreInv(s.c, FoundClear(steps))
  {
    if steps != [] {
      var n := |steps| - 1;
      var before := Run(INITIAL, steps[..n]).value;
      CoreOnRuns(steps[..n], before);
      CoreKept(before, steps[n], FoundClear(steps[..n]));
    }
  }

  /** Over every run, with other threads suspending the stack or not: a return leaves the core lock held exactly when
      some call, about to release it, found the suspended flag clear; and then it stays held for good. */
  lemma {:induction false} LockLeftIff(steps: seq<Step>, s: State)
    requires Run(INITIAL, steps) == Some(s)
    ensures s.c.pc == Idle ==> (s.c.core == Handler <==> FoundClear(steps))
    ensures FoundClear(steps) ==> s.c.core == Handler
  {
    CoreOnRuns(steps, s);
  }

  // ---------------------------------------------------------------- locks and flags

  /** Between taking the core lock and setting the flag, or releasing the lock and clearing the flag. */
  predicate InFlagUpdate(pc: Pc) {
    pc == AtSuspendFlag || pc == AtResumeFlag
  }

  /** The deep-sleep lock is balanced, and once inside, the function drops it only while it has the core lock, the
      offloads have been told to sleep and arriving packets are queued. A return leaves the offloads awake and the
      handler's mutex released. */
  predicate DeepSleepSafe(c: Control) {
    && 0 <= c.deepSleepLocks <= 1
    && (Inside(c.pc) && c.deepSleepLocks == 0 ==> c.core == Handler && c.callback && c.offloadsAsleep)
    && (c.pc == Idle ==> c.deepSleepLocks == 0 && !c.offloadsAsleep && !c.mutexHeld)
  }

  /** At every moment of every run, whatever other threads do. */
  lemma {:induction false} DeepSleepBalanced(steps: seq<Step>, s: State)
    requires Run(INITIAL, steps) == Some(s)
    ensures DeepSleepSafe(s.c)
  {
    CoreOnRuns(steps, s);
    RunKeepsInv(steps, s);
  }

  /** The suspended flag tells whether the caller holds the core lock; deep sleep is allowed only while the stack
      is suspended; and each return leaves the stack running, the callback cleared and the queue empty. */
  predicate Safe(c: Control, t: Traffic) {
    && DeepSleepSafe(c)
    && (!InFlagUpdate(c.pc) ==> (c.suspended <==> c.core == Handler))
    && (Inside(c.pc) && c.deepSleepLocks == 0 ==> c.suspended)
    && (c.pc == Idle ==> !c.suspended && c.core != Handler && !c.callback && Waiting(t) == [])
  }

  /** Safety at every moment of every run with a single caller. */
  lemma {:induction false} SuspendSafety(steps: seq<Step>, s: State)
    requires Run(INITIAL, steps) == Some(s) && SingleCaller(steps)
    ensures Safe(s.c, s.t)
  {
    DeepSleepBalanced(steps, s);
    RunKeepsInv(steps, s);
    RunKeepsAlone(steps, s);
  }

  // ---------------------------------------------------------------- packets

  lemma {:induction false} ConservedOnRuns(steps: seq<Step>, s: State, p: nat)
    requires Run(INITIAL, steps) == Some(s)
    ensures Conserved(s.t, p)
  {
    if steps != [] {
      var n := |steps| - 1;
      var before := Run(INITIAL, steps[..n]).value;
      ConservedOnRuns(steps[..n], before, p);
      ConservedKept(before, steps[n], p);
    }
  }

  /** Conservation, on every run: every packet that arrived is in exactly one place, once, and the queue never
      overflows. */
  lemma {:induction false} PacketsConserved(steps: seq<Step>, s: State, p: nat)
    requires Run(INITIAL, steps) == Some(s)
    ensures Places(s.t, p) == if p < s.t.arrived then 1 else 0
    ensures |s.t.queue| <= QUEUE_LENGTH
  {
    RunKeepsInv(steps, s);
    ConservedOnRuns(steps, s, p);
  }

  /** First in, first out, on every run, overtaken or not: packets enter the queue in arrival order, and those
      offered to the stack out of it have been offered in that order, with nothing left out, up to the ones
      still waiting. */
  lemma {:induction false} QueuedInArrivalOrder(steps: seq<Step>, s: State)
    requires Run(INITIAL, steps) == Some(s)
    ensures Increasing(s.t.queuedEver)
    ensures QueuedOf(s.t.offered, s.t.queuedEver) + Waiting(s.t) == s.t.queuedEver
    ensures Increasing(QueuedOf(s.t.offered, s.t.queuedEver))
  {
    RunKeepsInv(steps, s);
    WaitingBelow(s.t);
    RisingIsIncreasing(s.t.queuedEver);
    RisingPrefix(QueuedOf(s.t.offered, s.t.queuedEver), Waiting(s.t));
    RisingIsIncreasing(QueuedOf(s.t.offered, s.t.queuedEver));
  }

  /** Step `k` hands a packet straight to the stack while earlier ones are still waiting. */
  predicate Overtakes(steps: seq<Step>, k: nat)
    requires k < |steps|
  {
    var r := Run(INITIAL, steps[..k]);
    r.Some? && steps[k].Arrive? && !r.value.c.callback && Waiting(r.value.t) != []
  }

  predicate NoneOvertakes(steps: seq<Step>) {
    forall k | 0 <= k < |steps| :: !Overtakes(steps, k)
  }

  lemma OvertakenStep(s: State, a: Step)
    ensures TrafficStep(s, a).overtaken <==> s.t.overtaken || (a.Arrive? && !s.c.callback && Waiting(s.t) != [])
  {
  }

  lemma {:induction false} OvertakesEarlier(steps: seq<Step>, k: nat)
    requires k < |steps| - 1
    ensures Overtakes(steps[..|steps| - 1], k) <==> Overtakes(steps, k)
  {
    assert steps[..|steps| - 1][..k] == steps[..k];
  }

  lemma {:induction false} NoneOvertakesLast(steps: seq<Step>)
    requires steps != []
    ensures NoneOvertakes(steps) <==> NoneOvertakes(steps[..|steps| - 1]) && !Overtakes(steps, |steps| - 1)
  {
    var before := steps[..|steps| - 1];
    forall k | 0 <= k < |before|
      ensures Overtakes(before, k) <==> Overtakes(steps, k)
    {
      OvertakesEarlier(steps, k);
    }
    if !NoneOvertakes(before) {
      var k :| 0 <= k < |before| && Overtakes(before, k);
      assert Overtakes(steps, k);
    } else if !NoneOvertakes(steps) {
      var k :| 0 <= k < |steps| && Overtakes(steps, k);
      if k < |before| {
        assert false;
      }
    }
  }

  lemma {:induction false} OvertakenIs(steps: seq<Step>, s: State)
    requires Run(INITIAL, steps) == Some(s)
    ensures s.t.overtaken <==> !NoneOvertakes(steps)
  {
    if steps != [] {
      var n := |steps| - 1;
      var before := Run(INITIAL, steps[..n]).value;
      OvertakenIs(steps[..n], before);
      OvertakenStep(before, steps[n]);
      NoneOvertakesLast(steps);
    }
  }

  /** On return the stack has been offered its packets in arrival order exactly when none arrived between
      the callback's deregistration and the end of the drain while queued packets were still waiting. */
  lemma {:induction false} InOrderIffNoOvertaking(steps: seq<Step>, s: State)
    requires Run(INITIAL, steps) == Some(s) && s.c.pc == Idle
    ensures Increasing(s.t.offered) <==> NoneOvertakes(steps)
  {
    RunKeepsInv(steps, s);
    OvertakenIs(steps, s);
    RisingIsIncreasing(s.t.offered);
    if !s.t.overtaken {
      RisingPrefix(s.t.offered, Waiting(s.t));
    }
  }

  // ---------------------------------------------------------------- the callback on return

  /** What the last test of the suspended flag by the calling thread found. */
  predicate LastTestSet(steps: seq<Step>) {
    if steps == [] then false
    else
      var before := steps[..|steps| - 1];
      if steps[|steps| - 1].SuspendTest? then Run(INITIAL, before).Some? && Run(INITIAL, before).value.c.suspended
      else LastTestSet(before)
  }

  /** How the callback and the local result follow from that, by position. */
  predicate CallbackInv(c: Control, found: bool) {
    match c.pc
    case Idle | AtLockDs | AtInactivity | AtSuspend | AtFinalUnlock => c.callback == found
    case AtRegister | AtBranch => c.result == if found then BadState else Success
    case _ => !found
  }

  lemma CallbackEntry(c: Control, a: Step, found: bool)
    requires CallbackInv(c, found) && IsEntry(a) && c.pc == EntryPc(a)
    ensures CallbackInv(EntryStep(c, a), found)
  {
    var n := EntryStep(c, a);
    assert n.callback == c.callback;
    if a.Call? {
      assert c.pc == Idle && (n.pc == Idle || n.pc == AtLockDs);
    } else if a.LockDs? {
      assert c.pc == AtLockDs && n.pc == AtInactivity;
    } else {
      assert c.pc == AtInactivity && (n.pc == AtSuspend || n.pc == AtFinalUnlock);
    }
  }

  lemma CallbackSuspend(c: Control, a: Step, found: bool)
    requires ControlInv(c) && CallbackInv(c, found) && IsSuspend(a) && c.pc == SuspendPc(a)
    ensures CallbackInv(SuspendStep(c, a), if a.SuspendTest? then c.suspended else found)
  {
  }

  lemma CallbackSleep(c: Control, a: Step, found: bool)
    requires CallbackInv(c, found) && IsSleep(a) && c.pc == SleepPc(a)
    ensures CallbackInv(SleepStep(c, a), found)
  {
  }

  lemma CallbackWake(c: Control, a: Step, found: bool)
    requires CallbackInv(c, found) && IsWake(a) && c.pc == WakePc(a)
    ensures CallbackInv(WakeStep(c, a), found)
  {
  }

  lemma CallbackDrain(c: Control, a: Step, queueEmpty: bool, found: bool)
    requires CallbackInv(c, found) && IsDrain(a) && c.pc == DrainPc(a)
    ensures CallbackInv(DrainStep(c, a, queueEmpty), found)
  {
  }

  lemma CallbackReturn(c: Control, a: Step, found: bool)
    requires ControlInv(c) && CallbackInv(c, found) && IsReturn(a) && c.pc == ReturnPc(a)
    ensures CallbackInv(ReturnStep(c, a), found)
  {
  }

  lemma CallbackOutside(c: Control, a: Step, found: bool)
    requires CallbackInv(c, found) && IsOutside(a)
    ensures CallbackInv(OutsideStep(c, a), found)
  {
  }

  lemma CallbackOther(c: Control, a: Step, found: bool)
    requires CallbackInv(c, found) && IsOther(a)
    ensures CallbackInv(OtherStep(c, a), found)
  {
    if IsOutside(a) {
      CallbackOutside(c, a, found);
    }
  }

  lemma CallbackKept(s: State, a: Step, found: bool)
    requires ControlInv(s.c) && CallbackInv(s.c, found) && Enabled(s.c, a)
    ensures CallbackInv(ControlStep(s, a), if a.SuspendTest? then s.c.suspended else found)
  {
    if IsOther(a) {
      CallbackOther(s.c, a, found);
    } else if IsEntry(a) {
      CallbackEntry(s.c, a, found);
    } else if IsSuspend(a) {
      CallbackSuspend(s.c, a, found);
    } else if IsSleep(a) {
      CallbackSleep(s.c, a, found);
    } else if IsWake(a) {
      CallbackWake(s.c, a, found);
    } else if IsDrain(a) {
      CallbackDrain(s.c, a, s.t.queue == [], found);
    } else {
      CallbackReturn(s.c, a, found);
    }
  }

  lemma {:induction false} CallbackOnRuns(steps: seq<Step>, s: State)
    requires Run(INITIAL, steps) == Some(s)
    ensures CallbackInv(s.c, LastTestSet(steps))
  {
    if steps != [] {
      var n := |steps| - 1;
      var before := Run(INITIAL, steps[..n]).value;
      CallbackOnRuns(steps[..n], before);
      RunKeepsInv(steps[..n], before);
      CallbackKept(before, steps[n], LastTestSet(steps[..n]));
    }
  }

  /** Over every run, with other threads suspending the stack or not: between calls the RX queue callback is
      registered exactly when the last call that got as far as testing the suspended flag found it set. Such a call
      leaves the callback behind; a call that suspends the stack itself clears it; any other leaves it alone. */
  lemma {:induction false} CallbackLeftIff(steps: seq<Step>, s: State)
    requires Run(INITIAL, steps) == Some(s) && s.c.pc == Idle
    ensures s.c.callback <==> LastTestSet(steps)
    ensures s.t.queue != [] ==> LastTestSet(steps)
  {
    CallbackOnRuns(steps, s);
    RunKeepsInv(steps, s);
  }

  /** What a return promises holds exactly when neither test of the suspended flag went wrong: the core lock is
      released, the callback cleared and the queue empty if and only if no call found the flag clear before releasing
      the lock, and the last test before taking it did not find it set. */
  lemma {:induction false} CleanReturnIff(steps: seq<Step>, s: State)
    requires Run(INITIAL, steps) == Some(s) && s.c.pc == Idle
    ensures s.c.core != Handler && !s.c.callback && Waiting(s.t) == [] <==> !FoundClear(steps) && !LastTestSet(steps)
  {
    LockLeftIff(steps, s);
    CallbackLeftIff(steps, s);
    RunKeepsInv(steps, s);
  }

  // ---------------------------------------------------------------- progress

  /** A step the calling thread can take next. */
  function NextOf(pc: Pc): Step {
    match pc
    case Idle => Call(true)
    case AtLockDs => LockDs
    case AtInactivity => InactivityDone(Success)
    case AtSuspend => SuspendTest
    case AtLockCore => LockCore
    case AtSuspendFlag => SuspendSetFlag
    case AtRegister => Register
    case AtBranch => Branch
    case AtNotifySuspended => NotifySuspended
    case AtClear => ClearEvents
    case AtDispatchSleep => DispatchSleep
    case AtUnlockDs => UnlockDs
    case AtWait => WaitDone(true)
    case AtMutex => TakeMutex(true)
    case AtRelockDs => RelockDs
    case AtNotifyResuming => NotifyResuming(false)
    case AtDispatchAwake => DispatchAwake
    case AtDeregister => Deregister
    case AtDrain => DrainNext
    case AtInput => InputDone(true)
    case AtResume => ResumeTest
    case AtResumeFlag => ResumeClearFlag
    case AtSetMutex => SetMutex
    case AtFinalUnlock => FinalUnlock
  }

  lemma NextOfFits(c: Control)
    requires c.pc == AtLockCore ==> c.core == Free
    ensures !IsOther(NextOf(c.pc)) && Enabled(c, NextOf(c.pc))
  {
  }

  /** The single calling thread is never stuck: it can always go on, except that it may have to wait for the core
      lock at one statement while the stack has it, and then the stack can release it. */
  lemma {:induction false} CallerNeverStuck(steps: seq<Step>, s: State)
    requires Run(INITIAL, steps) == Some(s) && SingleCaller(steps)
    ensures if s.c.pc == AtLockCore && s.c.core == Stack then Enabled(s.c, StackUnlocks)
            else !IsOther(NextOf(s.c.pc)) && Enabled(s.c, NextOf(s.c.pc))
  {
    RunKeepsAlone(steps, s);
    assert s.c.pc == AtLockCore ==> s.c.core != Handler && s.c.core != Outside;
    if !(s.c.pc == AtLockCore && s.c.core == Stack) {
      NextOfFits(s.c);
    }
  }

  /** Statements the drain loop still has to execute before it finds the queue empty. */
  function DrainWork(t: Traffic): nat {
    2 * |t.queue| + |t.inHand|
  }

  /** How many statements, at most, follow the one at `pc`, it included, without those of the drain loop. */
  function Rank(pc: Pc): nat {
    match pc
    case Idle => 0
    case AtFinalUnlock => 1
    case AtSetMutex => 2
    case AtResumeFlag => 3
    case AtResume => 4
    case AtDrain | AtInput => 5
    case AtDeregister => 6
    case AtDispatchAwake => 7
    case AtNotifyResuming => 8
    case AtRelockDs => 9
    case AtMutex => 10
    case AtWait => 11
    case AtUnlockDs => 12
    case AtDispatchSleep => 13
    case AtClear => 14
    case AtNotifySuspended => 15
    case AtBranch => 16
    case AtRegister => 17
    case AtSuspendFlag => 18
    case AtLockCore => 19
    case AtSuspend => 20
    case AtInactivity => 21
    case AtLockDs => 22
  }

  /** An upper bound of the statements left in a call. */
  function Work(c: Control, t: Traffic): nat {
    Rank(c.pc) + if Rank(c.pc) > 5 then 2 * QUEUE_LENGTH else if InDrain(c.pc) then DrainWork(t) else 0
  }

  lemma EntryLowers(c: Control, a: Step)
    requires IsEntry(a) && !a.Call? && c.pc == EntryPc(a)
    ensures Rank(EntryStep(c, a).pc) < Rank(c.pc) && Rank(c.pc) > 5 && !InDrain(EntryStep(c, a).pc)
  {
    var n := EntryStep(c, a).pc;
    if a.LockDs? {
      assert c.pc == AtLockDs && n == AtInactivity;
    } else {
      assert c.pc == AtInactivity && (n == AtSuspend || n == AtFinalUnlock);
    }
  }

  lemma SuspendLowers(c: Control, a: Step)
    requires IsSuspend(a) && c.pc == SuspendPc(a)
    ensures Rank(SuspendStep(c, a).pc) < Rank(c.pc) && Rank(c.pc) > 5 && !InDrain(SuspendStep(c, a).pc)
  {
    var n := SuspendStep(c, a).pc;
    if a.SuspendTest? {
      assert c.pc == AtSuspend && (n == AtRegister || n == AtLockCore);
    } else if a.LockCore? {
      assert c.pc == AtLockCore && n == AtSuspendFlag;
    } else if a.SuspendSetFlag? {
      assert c.pc == AtSuspendFlag && n == AtRegister;
    } else if a.Register? {
      assert c.pc == AtRegister && n == AtBranch;
    } else {
      assert c.pc == AtBranch && (n == AtNotifySuspended || n == AtFinalUnlock);
    }
  }

  lemma SleepLowers(c: Control, a: Step)
    requires IsSleep(a) && c.pc == SleepPc(a)
    ensures Rank(SleepStep(c, a).pc) < Rank(c.pc) && Rank(c.pc) > 5 && !InDrain(SleepStep(c, a).pc)
  {
    var n := SleepStep(c, a).pc;
    if a.NotifySuspended? {
      assert c.pc == AtNotifySuspended && n == AtClear;
    } else if a.ClearEvents? {
      assert c.pc == AtClear && n == AtDispatchSleep;
    } else if a.DispatchSleep? {
      assert c.pc == AtDispatchSleep && n == AtUnlockDs;
    } else {
      assert c.pc == AtUnlockDs && n == AtWait;
    }
  }

  lemma WakeLowers(c: Control, a: Step)
    requires IsWake(a) && c.pc == WakePc(a)
    ensures Rank(WakeStep(c, a).pc) < Rank(c.pc) && Rank(c.pc) > 5 && !InDrain(WakeStep(c, a).pc)
  {
    var n := WakeStep(c, a).pc;
    if a.WaitDone? {
      assert c.pc == AtWait && n == AtMutex;
    } else if a.TakeMutex? {
      assert c.pc == AtMutex && n == AtRelockDs;
    } else if a.RelockDs? {
      assert c.pc == AtRelockDs && n == AtNotifyResuming;
    } else {
      assert c.pc == AtNotifyResuming && n == AtDispatchAwake;
    }
  }

  lemma ReturnLowers(c: Control, a: Step)
    requires IsReturn(a) && c.pc == ReturnPc(a)
    ensures Rank(ReturnStep(c, a).pc) < Rank(c.pc) <= 5 && !InDrain(c.pc) && !InDrain(ReturnStep(c, a).pc)
  {
    var n := ReturnStep(c, a).pc;
    if a.ResumeTest? {
      assert c.pc == AtResume && (n == AtResumeFlag || n == AtSetMutex);
    } else if a.ResumeClearFlag? {
      assert c.pc == AtResumeFlag && n == AtSetMutex;
    } else if a.SetMutex? {
      assert c.pc == AtSetMutex && n == AtFinalUnlock;
    } else {
      assert c.pc == AtFinalUnlock && n == Idle;
    }
  }

  lemma DrainLowers(s: State, a: Step)
    requires QueueInv(s.c, s.t) && IsDrain(a) && s.c.pc == DrainPc(a)
    ensures Work(DrainStep(s.c, a, s.t.queue == []), TrafficStep(s, a)) < Work(s.c, s.t)
  {
    if a.DispatchAwake? {
      assert s.c.pc == AtDispatchAwake;
    } else if a.Deregister? {
      assert s.c.pc == AtDeregister && TrafficStep(s, a) == s.t;
    } else if a.DrainNext? {
      assert s.c.pc == AtDrain;
    } else {
      assert s.c.pc == AtInput;
    }
  }

  /** Every statement of the caller lowers the bound. */
  lemma OwnStepLowers(s: State, a: Step)
    requires QueueInv(s.c, s.t) && Enabled(s.c, a) && !IsOther(a) && !a.Call?
    ensures Work(ControlStep(s, a), TrafficStep(s, a)) < Work(s.c, s.t)
  {
    if IsEntry(a) {
      EntryLowers(s.c, a);
    } else if IsSuspend(a) {
      SuspendLowers(s.c, a);
    } else if IsSleep(a) {
      SleepLowers(s.c, a);
    } else if IsWake(a) {
      WakeLowers(s.c, a);
    } else if IsDrain(a) {
      DrainLowers(s, a);
    } else {
      ReturnLowers(s.c, a);
    }
  }

  /** Other threads do not raise it: nothing is queued while the queue is drained. */
  lemma OthersLeaveWork(s: State, a: Step)
    requires ControlInv(s.c) && IsOther(a)
    ensures Work(ControlStep(s, a), TrafficStep(s, a)) == Work(s.c, s.t)
  {
    OtherLeavesPc(s.c, a);
    if InDrain(s.c.pc) {
      DrainNotFed(s, a);
    }
  }

  lemma DrainNotFed(s: State, a: Step)
    requires IsOther(a) && !s.c.callback
    ensures DrainWork(TrafficStep(s, a)) == DrainWork(s.t)
  {
  }

  lemma DrainAdvances(s: State, a: Step)
    requires QueueInv(s.c, s.t) && (a.DrainNext? || a.InputDone?) && s.c.pc == DrainPc(a)
    ensures DrainWork(TrafficStep(s, a)) < DrainWork(s.t)
            || (DrainStep(s.c, a, s.t.queue == []).pc == AtResume && Waiting(TrafficStep(s, a)) == [])
  {
  }

  /** The drain loop ends whatever arrives meanwhile: other threads cannot add to its work, and each of its
      own statements reduces it or leaves the loop with nothing waiting. */
  lemma DrainEnds(s: State, a: Step, r: State)
    requires Inv(s) && InDrain(s.c.pc) && Apply(s, a) == Some(r)
    ensures if IsOther(a) then r.c.pc == s.c.pc && DrainWork(r.t) == DrainWork(s.t)
            else DrainWork(r.t) < DrainWork(s.t) || (r.c.pc == AtResume && Waiting(r.t) == [])
  {
    if IsOther(a) {
      OtherLeavesPc(s.c, a);
      DrainNotFed(s, a);
    } else if a.DrainNext? || a.InputDone? {
      DrainAdvances(s, a);
    } else {
      DrainStatements(a);
    }
  }

  /** Statements of the calling thread among `steps`. */
  function OwnSteps(steps: seq<Step>): nat {
    if steps == [] then 0 else OwnSteps(steps[..|steps| - 1]) + if IsOther(steps[|steps| - 1]) then 0 else 1
  }

  predicate NoCall(steps: seq<Step>) {
    forall i | 0 <= i < |steps| :: !steps[i].Call?
  }

  lemma StepWork(s: State, a: Step, r: State)
    requires Inv(s) && Apply(s, a) == Some(r) && !a.Call?
    ensures Work(r.c, r.t) + (if IsOther(a) then 0 else 1) <= Work(s.c, s.t)
  {
    if IsOther(a) {
      OthersLeaveWork(s, a);
    } else {
      OwnStepLowers(s, a);
    }
  }

  lemma {:induction false} OwnStepsBounded(s: State, steps: seq<Step>, r: State)
    requires Inv(s) && Run(s, steps) == Some(r) && NoCall(steps)
    ensures OwnSteps(steps) + Work(r.c, r.t) <= Work(s.c, s.t)
  {
    if steps != [] {
      var n := |steps| - 1;
      var before := Run(s, steps[..n]).value;
      OwnStepsBounded(s, steps[..n], before);
      InvOnRuns(s, steps[..n], before);
      StepWork(before, steps[n], r);
    }
  }

  const CALL_STATEMENTS: nat := 22 + 2 * QUEUE_LENGTH

  /** Every call ends: over every run, whatever arrives and whatever other threads do, the caller executes at most
      62 statements in a call, the drain loop included, and every one it executes leaves fewer to go. */
  lemma {:induction false} CallBounded(before: seq<Step>, s: State, steps: seq<Step>, r: State)
    requires Run(INITIAL, before) == Some(s) && s.c.pc == AtLockDs
    requires Run(s, steps) == Some(r) && NoCall(steps)
    ensures OwnSteps(steps) <= CALL_STATEMENTS
    ensures OwnSteps(steps) == CALL_STATEMENTS ==> r.c.pc == Idle
  {
    RunKeepsInv(before, s);
    OwnStepsBounded(s, steps, r);
    NothingLeft(r.c, r.t);
  }

  lemma NothingLeft(c: Control, t: Traffic)
    ensures Work(c, t) == 0 ==> c.pc == Idle
  {
  }

  /** Steps between clearing the event flags and waiting on them. */
  predicate BeforeWait(a: Step) {
    IsOther(a) || a.DispatchSleep? || a.UnlockDs?
  }

  predicate EventSet(c: Control) {
    c.rxEvent || c.txEvent
  }

  lemma EventsKept(s: State, a: Step)
    requires BeforeWait(a) && (EventSet(s.c) || a.Activity?)
    ensures EventSet(ControlStep(s, a))
  {
    if IsOutside(a) {
      OutsideLeavesEvents(s.c, a);
    }
  }

  lemma OutsideLeavesEvents(c: Control, a: Step)
    requires IsOutside(a)
    ensures OutsideStep(c, a).rxEvent == c.rxEvent && OutsideStep(c, a).txEvent == c.txEvent
  {
  }

  /** No wake-up is lost: activity after the flags are cleared, even before the wait begins, makes the wait
      return at once. */
  lemma {:induction false} ActivityNotLost(s: State, steps: seq<Step>, r: State, k: nat)
    requires Run(s, steps) == Some(r) && k < |steps| && steps[k].Activity?
    requires forall i | 0 <= i < |steps| :: BeforeWait(steps[i])
    ensures EventSet(r.c) && (r.c.pc == AtWait ==> Enabled(r.c, WaitDone(false)))
  {
    EventsStay(s, steps, r, k);
  }

  lemma {:induction false} EventsStay(s: State, steps: seq<Step>, r: State, k: nat)
    requires Run(s, steps) == Some(r) && k < |steps| && steps[k].Activity?
    requires forall i | 0 <= i < |steps| :: BeforeWait(steps[i])
    ensures EventSet(r.c)
    decreases |steps|
  {
    var n := |steps| - 1;
    var before := Run(s, steps[..n]).value;
    if k < n {
      EventsStay(s, steps[..n], before, k);
    }
    EventsKept(before, steps[n]);
  }
}
