/** The suspend/resume protocol of `wait_net_suspend` (LWIP variant) as a state machine: the statements
    of the one calling thread, interleaved in any way with packets that the WLAN thread delivers, with
    network activity events, with the TCP/IP thread taking its core lock, and with one other thread that
    itself calls `cylpa_suspend_ns` and then `cylpa_resume_ns`. */
module SuspendProtocol {

  import opened Wrappers

  datatype Status = Success | WaitTimeout | InactivityTimeout | BadArgs | BadState | NetActivity

  /** Which statement the calling thread is about to execute. */
  datatype Pc =
    | Idle                // not in the function
    | AtLockDs            // lock deep sleep
    | AtInactivity        // wait for network inactivity
    | AtSuspend           // test the suspended flag
    | AtLockCore          // take the core lock
    | AtSuspendFlag       // set the suspended flag
    | AtRegister          // register the RX queue callback
    | AtBranch            // was the stack suspended?
    | AtNotifySuspended   // tell the application
    | AtClear             // clear the event flags
    | AtDispatchSleep     // tell the offloads
    | AtUnlockDs          // allow deep sleep
    | AtWait              // wait for activity
    | AtMutex             // take the handler's mutex
    | AtRelockDs          // lock deep sleep again
    | AtNotifyResuming    // tell the application
    | AtDispatchAwake     // tell the offloads
    | AtDeregister        // clear the RX queue callback
    | AtDrain             // next queued packet
    | AtInput             // offer the popped packet to the stack
    | AtResume            // test the suspended flag, release the core lock
    | AtResumeFlag        // clear the suspended flag
    | AtSetMutex          // release the handler's mutex
    | AtFinalUnlock       // allow deep sleep, return

  datatype Owner = Free | Stack | Handler | Outside

  /** Where the other thread is in its own use of `cylpa_suspend_ns` and `cylpa_resume_ns`. */
  datatype OutsidePc =
    | OutIdle       // not suspending
    | OutTested     // found the flag clear, waiting for the core lock
    | OutLocked     // has the lock, about to set the flag
    | OutHolding    // has suspended the stack
    | OutUnlocked   // has released the lock, about to clear the flag

  const QUEUE_LENGTH: nat := 20

  /** Locks, flags and events. */
  datatype Control = Control(
    pc: Pc,
    result: Status,
    suspended: bool,
    core: Owner,
    deepSleepLocks: int,
    callback: bool,
    rxEvent: bool,
    txEvent: bool,
    offloadsAsleep: bool,
    mutexHeld: bool,
    outside: OutsidePc)

  /** Packets are numbered in order of arrival; `arrived` of them have arrived. `queue` holds those waiting
      and `inHand` the one popped but not yet offered; `queuedEver` and `popped` record what ever entered
      and left the queue. `offered` lists the packets given to the stack's input function, in that order;
      it keeps those in `given`, and the buffers of those in `released` were released. `overtaken` records
      that a packet went to the stack directly while others were waiting. */
  datatype Traffic = Traffic(
    queue: seq<nat>,
    inHand: seq<nat>,
    arrived: nat,
    queuedEver: seq<nat>,
    popped: seq<nat>,
    offered: seq<nat>,
    given: seq<nat>,
    released: seq<nat>,
    overtaken: bool)

  datatype State = State(c: Control, t: Traffic)

  const INITIAL: State :=
    State(Control(Idle, Success, false, Free, 0, false, false, false, false, false, OutIdle),
          Traffic([], [], 0, [], [], [], [], [], false))

  datatype Step =
    // other threads
    | Arrive(accepted: bool)
    | Activity(tx: bool)
    | StackLocks
    | StackUnlocks
    | OutsideTest
    | OutsideLock
    | OutsideSetFlag
    | OutsideUnlock
    | OutsideClearFlag
    // the calling thread
    | Call(connected: bool)
    | LockDs
    | InactivityDone(status: Status)
    | SuspendTest
    | LockCore
    | SuspendSetFlag
    | Register
    | Branch
    | NotifySuspended
    | ClearEvents
    | DispatchSleep
    | UnlockDs
    | WaitDone(timeout: bool)
    | TakeMutex(acquired: bool)
    | RelockDs
    | NotifyResuming(late: bool)
    | DispatchAwake
    | Deregister
    | DrainNext
    | InputDone(taken: bool)
    | ResumeTest
    | ResumeClearFlag
    | SetMutex
    | FinalUnlock

  /** The steps of the other thread that suspends the stack. */
  predicate IsOutside(a: Step) {
    a.OutsideTest? || a.OutsideLock? || a.OutsideSetFlag? || a.OutsideUnlock? || a.OutsideClearFlag?
  }

  predicate IsOther(a: Step) {
    a.Arrive? || a.Activity? || a.StackLocks? || a.StackUnlocks? || IsOutside(a)
  }

  /** A packet reaches the driver: `cylpa_rx_activity` while the callback is registered, the stack's
      input function otherwise. */
  function ArriveStep(t: Traffic, callback: bool, accepted: bool): Traffic {
    var p := t.arrived;
    var u := t.(arrived := p + 1);
    if callback then
      if |t.queue| < QUEUE_LENGTH then u.(queue := t.queue + [p], queuedEver := t.queuedEver + [p])
      else u.(released := t.released + [p])
    else
      var v := u.(offered := t.offered + [p], overtaken := t.overtaken || t.inHand + t.queue != []);
      if accepted then v.(given := t.given + [p]) else v.(released := t.released + [p])
  }

  /** `cy_rtos_queue_get` on a queue that is not empty. */
  function PopStep(t: Traffic): Traffic {
    if t.queue == [] then t
    else t.(queue := t.queue[1..], popped := t.popped + [t.queue[0]], inHand := t.inHand + [t.queue[0]])
  }

  /** The popped packet goes to the stack's input function, or is released when that refuses it. */
  function InputStep(t: Traffic, taken: bool): Traffic {
    if t.inHand == [] then t
    else
      var p := t.inHand[0];
      var u := t.(offered := t.offered + [p], inHand := t.inHand[1..]);
      if taken then u.(given := t.given + [p]) else u.(released := t.released + [p])
  }

  function TrafficStep(s: State, a: Step): Traffic {
    match a
    case Arrive(accepted) => ArriveStep(s.t, s.c.callback, accepted)
    case DrainNext => PopStep(s.t)
    case InputDone(taken) => InputStep(s.t, taken)
    case _ => s.t
  }

  /** `cylpa_suspend_ns` and `cylpa_resume_ns` in the other thread. Finding the flag set, it gives up suspending;
      finding it clear, it gives up resuming and keeps the lock. */
  function OutsideStep(c: Control, a: Step): Control
    requires IsOutside(a)
  {
    match a
    case OutsideTest => if c.suspended then c else c.(outside := OutTested)
    case OutsideLock => c.(core := Outside, outside := OutLocked)
    case OutsideSetFlag => c.(suspended := true, outside := OutHolding)
    case OutsideUnlock => if c.suspended then c.(core := Free, outside := OutUnlocked) else c
    case OutsideClearFlag => c.(suspended := false, outside := OutIdle)
  }

  /** Effect of another thread's step on locks, flags and events. */
  function OtherStep(c: Control, a: Step): Control
    requires IsOther(a)
  {
    if IsOutside(a) then OutsideStep(c, a)
    else
      match a
      case Arrive(_) => c
      case Activity(tx) => if tx then c.(txEvent := true) else c.(rxEvent := true)
      case StackLocks => c.(core := Stack)
      case StackUnlocks => c.(core := Free)
  }

  /** From the call to the outcome of the inactivity wait. */
  predicate IsEntry(a: Step) {
    a.Call? || a.LockDs? || a.InactivityDone?
  }

  function EntryPc(a: Step): Pc
    requires IsEntry(a)
  {
    match a case Call(_) => Idle case LockDs => AtLockDs case InactivityDone(_) => AtInactivity
  }

  function EntryStep(c: Control, a: Step): Control
    requires IsEntry(a)
  {
    match a
    case Call(connected) => if connected then c.(pc := AtLockDs) else c.(result := BadState)
    case LockDs => c.(deepSleepLocks := c.deepSleepLocks + 1, pc := AtInactivity)
    case InactivityDone(st) =>
      if st == BadArgs then c.(result := st, pc := AtFinalUnlock)
      else c.(result := st, rxEvent := false, txEvent := false, pc := if st == Success then AtSuspend else AtFinalUnlock)
  }

  /** Suspending the stack, up to the decision whether that succeeded. */
  predicate IsSuspend(a: Step) {
    a.SuspendTest? || a.LockCore? || a.SuspendSetFlag? || a.Register? || a.Branch?
  }

  function SuspendPc(a: Step): Pc
    requires IsSuspend(a)
  {
    match a
    case SuspendTest => AtSuspend
    case LockCore => AtLockCore
    case SuspendSetFlag => AtSuspendFlag
    case Register => AtRegister
    case Branch => AtBranch
  }

  function SuspendStep(c: Control, a: Step): Control
    requires IsSuspend(a)
  {
    match a
    case SuspendTest => if c.suspended then c.(result := BadState, pc := AtRegister) else c.(pc := AtLockCore)
    case LockCore => c.(core := Handler, pc := AtSuspendFlag)
    case SuspendSetFlag => c.(suspended := true, result := Success, pc := AtRegister)
    case Register => c.(callback := true, pc := AtBranch)
    case Branch => c.(pc := if c.result == Success then AtNotifySuspended else AtFinalUnlock)
  }

  /** With the stack suspended, up to the moment deep sleep is allowed. */
  predicate IsSleep(a: Step) {
    a.NotifySuspended? || a.ClearEvents? || a.DispatchSleep? || a.UnlockDs?
  }

  function SleepPc(a: Step): Pc
    requires IsSleep(a)
  {
    match a
    case NotifySuspended => AtNotifySuspended
    case ClearEvents => AtClear
    case DispatchSleep => AtDispatchSleep
    case UnlockDs => AtUnlockDs
  }

  function SleepStep(c: Control, a: Step): Control
    requires IsSleep(a)
  {
    match a
    case NotifySuspended => c.(pc := AtClear)
    case ClearEvents => c.(rxEvent := false, txEvent := false, pc := AtDispatchSleep)
    case DispatchSleep => c.(offloadsAsleep := true, pc := AtUnlockDs)
    case UnlockDs => c.(deepSleepLocks := c.deepSleepLocks - 1, pc := AtWait)
  }

  /** From the wait to the notification of the application. */
  predicate IsWake(a: Step) {
    a.WaitDone? || a.TakeMutex? || a.RelockDs? || a.NotifyResuming?
  }

  function WakePc(a: Step): Pc
    requires IsWake(a)
  {
    match a
    case WaitDone(_) => AtWait
    case TakeMutex(_) => AtMutex
    case RelockDs => AtRelockDs
    case NotifyResuming(_) => AtNotifyResuming
  }

  function WakeStep(c: Control, a: Step): Control
    requires IsWake(a)
  {
    match a
    case WaitDone(timeout) =>
      if timeout then c.(result := WaitTimeout, pc := AtMutex)
      else c.(result := NetActivity, rxEvent := false, txEvent := false, pc := AtMutex)
    case TakeMutex(acquired) => c.(mutexHeld := acquired, pc := AtRelockDs)
    case RelockDs => c.(deepSleepLocks := c.deepSleepLocks + 1, pc := AtNotifyResuming)
    case NotifyResuming(late) => c.(result := if late then WaitTimeout else c.result, pc := AtDispatchAwake)
  }

  /** Waking the offloads and draining the queue. */
  predicate IsDrain(a: Step) {
    a.DispatchAwake? || a.Deregister? || a.DrainNext? || a.InputDone?
  }

  function DrainPc(a: Step): Pc
    requires IsDrain(a)
  {
    match a
    case DispatchAwake => AtDispatchAwake
    case Deregister => AtDeregister
    case DrainNext => AtDrain
    case InputDone(_) => AtInput
  }

  function DrainStep(c: Control, a: Step, queueEmpty: bool): Control
    requires IsDrain(a)
  {
    match a
    case DispatchAwake => c.(offloadsAsleep := false, pc := AtDeregister)
    case Deregister => c.(callback := false, pc := AtDrain)
    case DrainNext => c.(pc := if queueEmpty then AtResume else AtInput)
    case InputDone(_) => c.(pc := AtDrain)
  }

  /** Resuming the stack and returning. */
  predicate IsReturn(a: Step) {
    a.ResumeTest? || a.ResumeClearFlag? || a.SetMutex? || a.FinalUnlock?
  }

  function ReturnPc(a: Step): Pc
    requires IsReturn(a)
  {
    match a
    case ResumeTest => AtResume
    case ResumeClearFlag => AtResumeFlag
    case SetMutex => AtSetMutex
    case FinalUnlock => AtFinalUnlock
  }

  function ReturnStep(c: Control, a: Step): Control
    requires IsReturn(a)
  {
    match a
    case ResumeTest => if c.suspended then c.(core := Free, pc := AtResumeFlag) else c.(pc := AtSetMutex)
    case ResumeClearFlag => c.(suspended := false, pc := AtSetMutex)
    case SetMutex => c.(mutexHeld := false, pc := AtFinalUnlock)
    case FinalUnlock => c.(deepSleepLocks := c.deepSleepLocks - 1, pc := Idle)
  }

  /** Where the calling thread must be to take a step. */
  function PcOf(a: Step): Pc
    requires !IsOther(a)
  {
    if IsEntry(a) then EntryPc(a)
    else if IsSuspend(a) then SuspendPc(a)
    else if IsSleep(a) then SleepPc(a)
    else if IsWake(a) then WakePc(a)
    else if IsDrain(a) then DrainPc(a)
    else ReturnPc(a)
  }

  /** Whether the other thread can take a step of its own. */
  predicate OutsideEnabled(c: Control, a: Step)
    requires IsOutside(a)
  {
    match a
    case OutsideTest => c.outside == OutIdle
    case OutsideLock => c.outside == OutTested && c.core == Free
    case OutsideSetFlag => c.outside == OutLocked
    case OutsideUnlock => c.outside == OutHolding && c.core == Outside
    case OutsideClearFlag => c.outside == OutUnlocked
  }

  /** Whether a step is possible: the thread is there, and nothing it waits for is missing. */
  predicate Enabled(c: Control, a: Step) {
    if IsOutside(a) then OutsideEnabled(c, a)
    else if IsOther(a) then (a.StackLocks? ==> c.core == Free) && (a.StackUnlocks? ==> c.core == Stack)
    else
      && c.pc == PcOf(a)
      && (a.InactivityDone? ==> a.status == Success || a.status == InactivityTimeout || a.status == BadArgs)
      && (a.LockCore? ==> c.core == Free)
      && (a.WaitDone? ==> a.timeout || c.rxEvent || c.txEvent)
  }

  /** Effect of a step on locks, flags and events. */
  function ControlStep(s: State, a: Step): Control {
    if IsOther(a) then OtherStep(s.c, a)
    else if IsEntry(a) then EntryStep(s.c, a)
    else if IsSuspend(a) then SuspendStep(s.c, a)
    else if IsSleep(a) then SleepStep(s.c, a)
    else if IsWake(a) then WakeStep(s.c, a)
    else if IsDrain(a) then DrainStep(s.c, a, s.t.queue == [])
    else ReturnStep(s.c, a)
  }

  function Apply(s: State, a: Step): Option<State> {
    if Enabled(s.c, a) then Some(State(ControlStep(s, a), TrafficStep(s, a))) else None
  }

  /** A run: every step in turn, if all of them are possible. */
  function Run(s: State, steps: seq<Step>): Option<State> {
    if steps == [] then Some(s)
    else
      var r := Run(s, steps[..|steps| - 1]);
      if r.None? then None else Apply(r.value, steps[|steps| - 1])
  }

  // ---------------------------------------------------------------- what every run keeps

  /** The function has taken the deep-sleep lock and not yet finally released it. */
  predicate Inside(pc: Pc) {
    pc != Idle && pc != AtLockDs
  }

  /** The statements with the deep-sleep lock dropped. */
  predicate MaySleep(pc: Pc) {
    pc == AtWait || pc == AtMutex || pc == AtRelockDs
  }

  /** Statements at which the offloads have been told to sleep. */
  predicate WhileOffloading(pc: Pc) {
    MaySleep(pc) || pc == AtUnlockDs || pc == AtNotifyResuming || pc == AtDispatchAwake
  }

  /** Statements between registering the RX queue callback and clearing it. */
  predicate WhileQueueing(pc: Pc) {
    match pc
    case AtBranch | AtNotifySuspended | AtClear | AtDispatchSleep | AtUnlockDs | AtWait | AtMutex | AtRelockDs
      | AtNotifyResuming | AtDispatchAwake | AtDeregister => true
    case _ => false
  }

  /** Statements between clearing the callback and the final unlock. */
  predicate AfterQueueing(pc: Pc) {
    pc == AtDrain || pc == AtInput || pc == AtResume || pc == AtResumeFlag || pc == AtSetMutex
  }

  /** Statements between taking the handler's mutex and releasing it. */
  predicate WithMutex(pc: Pc) {
    AfterQueueing(pc) || pc == AtRelockDs || pc == AtNotifyResuming || pc == AtDispatchAwake || pc == AtDeregister
  }

  predicate InDrain(pc: Pc) {
    pc == AtDrain || pc == AtInput
  }

  /** What follows from the position alone, whatever other threads do. */
  predicate ControlInv(c: Control) {
    && c.deepSleepLocks == (if Inside(c.pc) && !MaySleep(c.pc) then 1 else 0)
    && c.offloadsAsleep == WhileOffloading(c.pc)
    && (WhileQueueing(c.pc) ==> c.callback)
    && (AfterQueueing(c.pc) ==> !c.callback)
    && (c.mutexHeld ==> WithMutex(c.pc))
  }

  lemma OutsideKeeps(c: Control, a: Step)
    requires ControlInv(c) && IsOutside(a)
    ensures ControlInv(OutsideStep(c, a))
  {
  }

  lemma OtherKeeps(c: Control, a: Step)
    requires ControlInv(c) && IsOther(a)
    ensures ControlInv(OtherStep(c, a))
  {
    if IsOutside(a) {
      OutsideKeeps(c, a);
    }
  }

  lemma CallKeeps(c: Control, connected: bool)
    requires ControlInv(c) && c.pc == Idle
    ensures ControlInv(EntryStep(c, Call(connected)))
  {
  }

  lemma LockDsKeeps(c: Control)
    requires ControlInv(c) && c.pc == AtLockDs
    ensures ControlInv(EntryStep(c, LockDs))
  {
  }

  lemma InactivityKeeps(c: Control, status: Status)
    requires ControlInv(c) && c.pc == AtInactivity
    ensures ControlInv(EntryStep(c, InactivityDone(status)))
  {
  }

  lemma EntryKeeps(c: Control, a: Step)
    requires ControlInv(c) && IsEntry(a) && c.pc == EntryPc(a)
    ensures ControlInv(EntryStep(c, a))
  {
    match a
    case Call(connected) => CallKeeps(c, connected);
    case LockDs => LockDsKeeps(c);
    case InactivityDone(status) => InactivityKeeps(c, status);
  }

  lemma SuspendKeeps(c: Control, a: Step)
    requires ControlInv(c) && IsSuspend(a) && c.pc == SuspendPc(a)
    ensures ControlInv(SuspendStep(c, a))
  {
  }

  lemma SleepKeeps(c: Control, a: Step)
    requires ControlInv(c) && IsSleep(a) && c.pc == SleepPc(a)
    ensures ControlInv(SleepStep(c, a))
  {
  }

  lemma WakeKeeps(c: Control, a: Step)
    requires ControlInv(c) && IsWake(a) && c.pc == WakePc(a)
    ensures ControlInv(WakeStep(c, a))
  {
  }

  lemma ReturnKeeps(c: Control, a: Step)
    requires ControlInv(c) && IsReturn(a) && c.pc == ReturnPc(a)
    ensures ControlInv(ReturnStep(c, a))
  {
  }

  lemma DrainKeeps(c: Control, a: Step, queueEmpty: bool)
    requires ControlInv(c) && IsDrain(a) && c.pc == DrainPc(a)
    ensures ControlInv(DrainStep(c, a, queueEmpty))
  {
  }

  lemma ControlInvKept(s: State, a: Step)
    requires ControlInv(s.c) && Enabled(s.c, a)
    ensures ControlInv(ControlStep(s, a))
  {
    if IsOther(a) {
      OtherKeeps(s.c, a);
    } else if IsEntry(a) {
      EntryKeeps(s.c, a);
    } else if IsSuspend(a) {
      SuspendKeeps(s.c, a);
    } else if IsSleep(a) {
      SleepKeeps(s.c, a);
    } else if IsWake(a) {
      WakeKeeps(s.c, a);
    } else if IsDrain(a) {
      DrainKeeps(s.c, a, s.t.queue == []);
    } else {
      ReturnKeeps(s.c, a);
    }
  }

  // ---------------------------------------------------------------- the single caller

  /** Statements at which the single caller has set the suspended flag. */
  predicate WhileSuspended(pc: Pc) {
    WhileQueueing(pc) || pc == AtRegister || pc == AtResumeFlag || InDrain(pc) || pc == AtResume
  }

  /** Statements at which the single caller owns the TCP/IP core lock. */
  predicate WhileLocked(pc: Pc) {
    pc == AtSuspendFlag || (WhileSuspended(pc) && pc != AtResumeFlag)
  }

  /** What holds besides while nothing else uses `cylpa_suspend_ns`. */
  predicate AloneInv(c: Control) {
    && c.outside == OutIdle && c.core != Outside
    && c.suspended == WhileSuspended(c.pc)
    && (c.core == Handler) == WhileLocked(c.pc)
    && c.callback == WhileQueueing(c.pc)
    && (c.pc == AtRegister || c.pc == AtBranch ==> c.result == Success)
  }

  lemma OtherKeepsAlone(c: Control, a: Step)
    requires AloneInv(c) && IsOther(a) && !IsOutside(a)
    requires (a.StackLocks? ==> c.core == Free) && (a.StackUnlocks? ==> c.core == Stack)
    ensures AloneInv(OtherStep(c, a))
  {
  }

  lemma EntryKeepsAlone(c: Control, a: Step)
    requires AloneInv(c) && IsEntry(a) && c.pc == EntryPc(a)
    ensures AloneInv(EntryStep(c, a))
  {
  }

  lemma SuspendKeepsAlone(c: Control, a: Step)
    requires AloneInv(c) && IsSuspend(a) && c.pc == SuspendPc(a)
    ensures AloneInv(SuspendStep(c, a))
  {
  }

  lemma SleepKeepsAlone(c: Control, a: Step)
    requires AloneInv(c) && IsSleep(a) && c.pc == SleepPc(a)
    ensures AloneInv(SleepStep(c, a))
  {
  }

  lemma WakeKeepsAlone(c: Control, a: Step)
    requires AloneInv(c) && IsWake(a) && c.pc == WakePc(a)
    ensures AloneInv(WakeStep(c, a))
  {
  }

  lemma ReturnKeepsAlone(c: Control, a: Step)
    requires AloneInv(c) && IsReturn(a) && c.pc == ReturnPc(a)
    ensures AloneInv(ReturnStep(c, a))
  {
  }

  lemma DrainKeepsAlone(c: Control, a: Step, queueEmpty: bool)
    requires AloneInv(c) && IsDrain(a) && c.pc == DrainPc(a)
    ensures AloneInv(DrainStep(c, a, queueEmpty))
  {
  }

  lemma AloneInvKept(s: State, a: Step)
    requires AloneInv(s.c) && Enabled(s.c, a) && !IsOutside(a)
    ensures AloneInv(ControlStep(s, a))
  {
    if IsOther(a) {
      OtherKeepsAlone(s.c, a);
    } else if IsEntry(a) {
      EntryKeepsAlone(s.c, a);
    } else if IsSuspend(a) {
      SuspendKeepsAlone(s.c, a);
    } else if IsSleep(a) {
      SleepKeepsAlone(s.c, a);
    } else if IsWake(a) {
      WakeKeepsAlone(s.c, a);
    } else if IsDrain(a) {
      DrainKeepsAlone(s.c, a, s.t.queue == []);
    } else {
      ReturnKeepsAlone(s.c, a);
    }
  }

}
