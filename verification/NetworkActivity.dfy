/** `network_activity_handler.c` as it executes (LWIP variant): static flags, RX queue and locks updated
    statement by statement. Before every statement the other threads may take any steps, given by a
    schedule; one of them may itself suspend and resume the stack. Every moment of an execution is shown to
    be a moment of the protocol in `SuspendProtocol`. */
module NetworkActivity {
  import opened Words
  import opened Wrappers
  import opened SuspendProtocol
  import opened SuspendTraffic
  import opened SuspendTheorems
  import opened SuspendRuns
  import InactivityWait

  /** The bits of an event group. */
  datatype Flags = Flags(rx: bool, tx: bool)

  const NO_FLAGS: Flags := Flags(false, false)

  /** What the RX path has done so far, recorded for the proof. */
  datatype Log = Log(inHand: seq<nat>, queuedEver: seq<nat>, popped: seq<nat>, offered: seq<nat>, overtaken: bool)

  /** What becomes of packets offered to a stack that refuses those listed: given to it, or released. */
  predicate Settled(ps: seq<nat>, refuse: set<nat>, given: seq<nat>, released: seq<nat>) {
    forall i | 0 <= i < |ps| :: if ps[i] in refuse then ps[i] in released else ps[i] in given
  }

  lemma {:induction false} SettledOneMore(ps: seq<nat>, p: nat, refuse: set<nat>, given: seq<nat>, released: seq<nat>)
    requires Settled(ps, refuse, given, released)
    requires if p in refuse then p in released else p in given
    ensures Settled(ps + [p], refuse, given, released)
  {
  }

  lemma {:induction false} StaysSettled(ps: seq<nat>, refuse: set<nat>, given: seq<nat>, released: seq<nat>,
                                        given': seq<nat>, released': seq<nat>)
    requires Settled(ps, refuse, given, released) && given <= given' && released <= released'
    ensures Settled(ps, refuse, given', released')
  {
    forall i | 0 <= i < |ps|
      ensures if ps[i] in refuse then ps[i] in released' else ps[i] in given'
    {
      PrefixKeeps(given, given', ps[i]);
      PrefixKeeps(released, released', ps[i]);
    }
  }

  lemma {:induction false} PrefixKeeps(q: seq<nat>, r: seq<nat>, p: nat)
    requires q <= r
    ensures p in q ==> p in r
  {
    if p in q {
      var i :| 0 <= i < |q| && q[i] == p;
      assert r[i] == p;
    }
  }

  class Handler {
    /** `cylpa_s_ns_suspended`, the owner of the TCP/IP core lock, and this function's deep-sleep locks. */
    var suspended: bool
    var core: Owner
    var deepSleepLocks: int
    /** Is `cylpa_rx_activity` registered, and what has it queued? */
    var callback: bool
    var rxQueue: seq<nat>
    /** `cy_lp_wait_net_event_valid` and the flags of `cy_lp_wait_net_event`. */
    var eventValid: bool
    var flags: Flags
    var offloadsAsleep: bool
    var mutexHeld: bool
    /** The function's local `state`. */
    var result: Status
    /** Packets that arrived, that the stack accepted, and whose buffers were released. */
    var arrived: nat
    var given: seq<nat>
    var released: seq<nat>
    /** The other user of `cylpa_suspend_ns` and `cylpa_resume_ns`; with `alone` there is none. */
    const alone: bool
    var outside: OutsidePc

    ghost var pc: Pc
    ghost var log: Log
    /** What the last test of the suspended flag by `cylpa_suspend_ns` in this thread found. */
    ghost var foundSet: bool
    /** Any property of protocol states that the protocol's steps keep. */
    ghost const holds: State -> bool

    ghost function ControlView(): Control
      reads this
    {
      Control(pc, result, suspended, core, deepSleepLocks, callback, flags.rx, flags.tx, offloadsAsleep, mutexHeld, outside)
    }

    ghost function TrafficView(): Traffic
      reads this
    {
      Traffic(rxQueue, log.inHand, arrived, log.queuedEver, log.popped, log.offered, given, released, log.overtaken)
    }

    ghost function View(): State
      reads this
    {
      State(ControlView(), TrafficView())
    }

    ghost predicate Valid()
      reads this
    {
      Closed(holds, alone) && holds(View()) && (pc != Idle ==> eventValid)
    }

    constructor (ghost holds: State -> bool, alone: bool)
      requires Closed(holds, alone)
      ensures Valid() && this.holds == holds && this.alone == alone && AtRest() && View() == INITIAL && !eventValid
    {
      suspended, core, deepSleepLocks, callback, rxQueue := false, Owner.Free, 0, false, [];
      eventValid, flags, offloadsAsleep, mutexHeld, result := false, NO_FLAGS, false, false, Success;
      arrived, given, released := 0, [], [];
      this.alone, outside := alone, OutIdle;
      pc, log, foundSet := Idle, Log([], [], [], [], false), false;
      this.holds := holds;
    }

    /** Between calls. */
    ghost predicate AtRest()
      reads this
    {
      pc == Idle && log.inHand == []
    }

    /** What other threads cannot change. */
    ghost function Private(): (Pc, Status, bool, bool, (seq<nat>, seq<nat>), bool)
      reads this
    {
      (pc, result, callback, core == Owner.Handler, (log.inHand, log.popped), foundSet)
    }

    /** Packets only ever come to the stack and to the released ones. */
    ghost predicate Grown(given0: seq<nat>, released0: seq<nat>)
      reads this
    {
      given0 <= given && released0 <= released
    }

    // -------------------------------------------------------------- other threads

    /** `cylpa_rx_activity`: the WLAN thread delivers a packet while the callback is registered. */
    method RxActivity()
      requires Valid() && callback
      modifies this
      ensures Valid() && Private() == old(Private()) && ControlView() == old(ControlView())
      ensures arrived == old(arrived) + 1 && given == old(given)
      ensures if old(|rxQueue|) < QUEUE_LENGTH then rxQueue == old(rxQueue) + [old(arrived)] && released == old(released)
              else rxQueue == old(rxQueue) && released == old(released) + [old(arrived)]
    {
      if |rxQueue| < QUEUE_LENGTH {
        PutInQueue();
      } else {
        ReleaseUnqueued();
      }
    }

    method PutInQueue()
      requires Valid() && callback && |rxQueue| < QUEUE_LENGTH
      modifies this
      ensures Valid() && Private() == old(Private()) && ControlView() == old(ControlView())
      ensures arrived == old(arrived) + 1 && given == old(given)
      ensures rxQueue == old(rxQueue) + [old(arrived)] && released == old(released)
    {
      ghost var n := NextArrival(holds, alone, View(), true);
      rxQueue := rxQueue + [arrived];
      log := log.(queuedEver := log.queuedEver + [arrived]);
      arrived := arrived + 1;
      assert View().t == n.t;
    }

    method ReleaseUnqueued()
      requires Valid() && callback && |rxQueue| >= QUEUE_LENGTH
      modifies this
      ensures Valid() && Private() == old(Private()) && ControlView() == old(ControlView())
      ensures arrived == old(arrived) + 1 && given == old(given)
      ensures rxQueue == old(rxQueue) && released == old(released) + [old(arrived)]
    {
      ghost var n := NextArrival(holds, alone, View(), true);
      released := released + [arrived];
      arrived := arrived + 1;
      assert View().t == n.t;
    }

    /** A packet while the callback is not registered goes to the stack's input function. */
    method DirectInput(accepted: bool)
      requires Valid() && !callback
      modifies this
      ensures Valid() && Private() == old(Private()) && ControlView() == old(ControlView())
      ensures rxQueue == old(rxQueue) && arrived == old(arrived) + 1
      ensures given == old(given) + if accepted then [old(arrived)] else []
      ensures released == old(released) + if accepted then [] else [old(arrived)]
    {
      if accepted {
        DirectAccepted();
      } else {
        DirectRefused();
      }
    }

    method DirectAccepted()
      requires Valid() && !callback
      modifies this
      ensures Valid() && Private() == old(Private()) && ControlView() == old(ControlView())
      ensures rxQueue == old(rxQueue) && arrived == old(arrived) + 1
      ensures given == old(given) + [old(arrived)] && released == old(released)
    {
      ghost var n := NextArrival(holds, alone, View(), true);
      log := log.(offered := log.offered + [arrived], overtaken := log.overtaken || log.inHand + rxQueue != []);
      given := given + [arrived];
      arrived := arrived + 1;
      assert View().t == n.t;
    }

    method DirectRefused()
      requires Valid() && !callback
      modifies this
      ensures Valid() && Private() == old(Private()) && ControlView() == old(ControlView())
      ensures rxQueue == old(rxQueue) && arrived == old(arrived) + 1
      ensures given == old(given) && released == old(released) + [old(arrived)]
    {
      ghost var n := NextArrival(holds, alone, View(), false);
      log := log.(offered := log.offered + [arrived], overtaken := log.overtaken || log.inHand + rxQueue != []);
      released := released + [arrived];
      arrived := arrived + 1;
      assert View().t == n.t;
    }

    /** `cylpa_on_emac_activity`. */
    method OnEmacActivity(isTx: bool)
      requires Valid()
      modifies this
      ensures Valid() && Private() == old(Private()) && TrafficView() == old(TrafficView())
      ensures flags.tx == (old(flags.tx) || (eventValid && isTx)) && flags.rx == (old(flags.rx) || (eventValid && !isTx))
      ensures eventValid == old(eventValid)
    {
      ghost var n := NextOther(holds, alone, View(), Activity(isTx));
      if eventValid {
        flags := if isTx then flags.(tx := true) else flags.(rx := true);
        assert n == View();
      }
    }

    /** The TCP/IP thread takes or releases its core lock. */
    method StackCore(lock: bool)
      requires Valid() && core == if lock then Owner.Free else Owner.Stack
      modifies this
      ensures Valid() && Private() == old(Private()) && TrafficView() == old(TrafficView())
      ensures core == if lock then Owner.Stack else Owner.Free
    {
      ghost var n := NextOther(holds, alone, View(), if lock then StackLocks else StackUnlocks);
      core := if lock then Owner.Stack else Owner.Free;
      assert n == View();
    }

    /** `cylpa_suspend_ns` in the other thread, a statement at a time. */
    method OutsideSuspends(a: Step)
      requires Valid() && !alone && (a.OutsideTest? || a.OutsideLock? || a.OutsideSetFlag?)
      requires OutsideEnabled(ControlView(), a)
      modifies this
      ensures Valid() && Private() == old(Private()) && TrafficView() == old(TrafficView())
      ensures ControlView() == OutsideStep(old(ControlView()), a)
    {
      ghost var n := NextOutside(holds, View(), a);
      if a.OutsideTest? {
        if !suspended {
          outside := OutTested;
        }
      } else if a.OutsideLock? {
        core, outside := Owner.Outside, OutLocked;
      } else {
        suspended, outside := true, OutHolding;
      }
      assert n == View();
    }

    /** `cylpa_resume_ns` there. */
    method OutsideResumes(a: Step)
      requires Valid() && !alone && (a.OutsideUnlock? || a.OutsideClearFlag?)
      requires OutsideEnabled(ControlView(), a)
      modifies this
      ensures Valid() && Private() == old(Private()) && TrafficView() == old(TrafficView())
      ensures ControlView() == OutsideStep(old(ControlView()), a)
    {
      ghost var n := NextOutside(holds, View(), a);
      if a.OutsideUnlock? {
        if suspended {
          core, outside := Owner.Free, OutUnlocked;
        }
      } else {
        suspended, outside := false, OutIdle;
      }
      assert n == View();
    }

    /** The other threads run: those of the scheduled steps that are theirs and possible. */
    method Others(schedule: seq<seq<Step>>, i: nat)
      requires Valid()
      modifies this
      ensures Valid() && Private() == old(Private())
      ensures Grown(old(given), old(released))
      ensures !callback ==> rxQueue == old(rxQueue)
    {
      if i >= |schedule| {
        return;
      }
      for k := 0 to |schedule[i]|
        invariant Valid() && Private() == old(Private()) && Grown(old(given), old(released))
        invariant !callback ==> rxQueue == old(rxQueue)
      {
        OneOther(schedule[i][k]);
      }
    }

    method OneOther(a: Step)
      requires Valid()
      modifies this
      ensures Valid() && Private() == old(Private())
      ensures Grown(old(given), old(released))
      ensures !callback ==> rxQueue == old(rxQueue)
    {
      if a.Arrive? {
        if callback {
          RxActivity();
        } else {
          DirectInput(a.accepted);
        }
      } else if a.Activity? {
        OnEmacActivity(a.tx);
      } else if a.StackLocks? && core == Owner.Free {
        StackCore(true);
      } else if a.StackUnlocks? && core == Owner.Stack {
        StackCore(false);
      } else if !alone {
        OutsideRuns(a);
      }
    }

    method OutsideRuns(a: Step)
      requires Valid() && !alone
      modifies this
      ensures Valid() && Private() == old(Private())
      ensures TrafficView() == old(TrafficView())
    {
      if a.OutsideTest? && outside == OutIdle {
        OutsideSuspends(a);
      } else if a.OutsideLock? && outside == OutTested && core == Owner.Free {
        OutsideSuspends(a);
      } else if a.OutsideSetFlag? && outside == OutLocked {
        OutsideSuspends(a);
      } else if a.OutsideUnlock? && outside == OutHolding && core == Owner.Outside {
        OutsideResumes(a);
      } else if a.OutsideClearFlag? && outside == OutUnlocked {
        OutsideResumes(a);
      }
    }

    // -------------------------------------------------------------- suspending and resuming

    /** The core lock is held, and whoever holds it is not going to release it. */
    ghost predicate LockLost()
      reads this
    {
      pc == AtLockCore && core != Owner.Free && core != Owner.Stack
    }

    /** `cylpa_suspend_ns`. It does not return if the core lock is lost. */
    method SuspendNs(schedule: seq<seq<Step>>, i: nat) returns (state: Status, returned: bool)
      requires Valid() && pc == AtSuspend
      modifies this
      ensures Valid() && log.inHand == old(log.inHand) && log.popped == old(log.popped) && foundSet == old(suspended)
      ensures !returned ==> LockLost() && !foundSet
      ensures returned ==> pc == AtRegister && result == state == if foundSet then BadState else Success
      ensures returned && !foundSet ==> suspended && core == Owner.Handler
    {
      var found := suspended;
      TestFlag();
      if found {
        return BadState, true;
      }
      Others(schedule, i);
      returned := WaitForCore();
      if returned {
        LockTheCore();
        Others(schedule, i + 1);
        SetSuspended();
      }
      state := Success;
    }

    method TestFlag()
      requires Valid() && pc == AtSuspend
      modifies this
      ensures Valid() && log == old(log) && foundSet == old(suspended)
      ensures if foundSet then pc == AtRegister && result == BadState else pc == AtLockCore
    {
      ghost var n := NextSuspend(holds, alone, View(), SuspendTest);
      foundSet := suspended;
      if suspended {
        result, pc := BadState, AtRegister;
      } else {
        pc := AtLockCore;
      }
      assert n == View();
    }

    /** Waiting for the core lock lets its holder run until it is released, unless that never happens. */
    method WaitForCore() returns (free: bool)
      requires Valid() && pc == AtLockCore
      modifies this
      ensures Valid() && Private() == old(Private())
      ensures if free then core == Owner.Free else LockLost()
    {
      if core == Owner.Stack {
        StackCore(false);
      } else if core == Owner.Outside && !alone {
        OutsideRuns(OutsideSetFlag);
        OutsideRuns(OutsideUnlock);
      }
      free := core == Owner.Free;
      if core == Owner.Stack {
        StackCore(false);
        free := true;
      }
    }

    method LockTheCore()
      requires Valid() && pc == AtLockCore && core == Owner.Free
      modifies this
      ensures Valid() && pc == AtSuspendFlag && core == Owner.Handler && log == old(log) && foundSet == old(foundSet)
    {
      ghost var n := NextSuspend(holds, alone, View(), LockCore);
      core, pc := Owner.Handler, AtSuspendFlag;
      assert n == View();
    }

    method SetSuspended()
      requires Valid() && pc == AtSuspendFlag
      modifies this
      ensures Valid() && pc == AtRegister && suspended && result == Success && KeptButResult(old(Private()))
    {
      ghost var n := NextSuspended(holds, alone, View());
      suspended, result, pc := true, Success, AtRegister;
      assert n == View();
    }

    /** `cylpa_resume_ns`. */
    method ResumeNs(schedule: seq<seq<Step>>, i: nat) returns (state: Status)
      requires Valid() && pc == AtResume && !callback && log.inHand == []
      modifies this
      ensures Valid() && pc == AtSetMutex && result == old(result) && !callback && log.inHand == [] && foundSet == old(foundSet)
      ensures log.popped == old(log.popped) && rxQueue == old(rxQueue) && Grown(old(given), old(released))
      ensures state == if old(suspended) then Success else BadState
      ensures state == Success ==> !suspended && core != Owner.Handler
      ensures state == BadState ==> (core == Owner.Handler) == old(core == Owner.Handler)
    {
      if !suspended {
        state := BadState;
        NotSuspended();
      } else {
        UnlockCore();
        Others(schedule, i);
        ClearSuspended();
        state := Success;
      }
    }

    method NotSuspended()
      requires Valid() && pc == AtResume && !suspended
      modifies this
      ensures Valid() && pc == AtSetMutex && Kept(old(Private()))
      ensures TrafficView() == old(TrafficView())
    {
      ghost var n := NextReturn(holds, alone, View(), ResumeTest);
      pc := AtSetMutex;
      assert n == View();
    }

    method UnlockCore()
      requires Valid() && pc == AtResume && suspended
      modifies this
      ensures Valid() && pc == AtResumeFlag && result == old(result) && callback == old(callback)
      ensures core == Owner.Free && TrafficView() == old(TrafficView()) && log == old(log) && foundSet == old(foundSet)
    {
      ghost var n := NextReturn(holds, alone, View(), ResumeTest);
      core, pc := Owner.Free, AtResumeFlag;
      assert n == View();
    }

    method ClearSuspended()
      requires Valid() && pc == AtResumeFlag
      modifies this
      ensures Valid() && pc == AtSetMutex && !suspended && Kept(old(Private()))
      ensures TrafficView() == old(TrafficView())
    {
      ghost var n := NextReturn(holds, alone, View(), ResumeClearFlag);
      suspended, pc := false, AtSetMutex;
      assert n == View();
    }

    /** Everything private but the position is as in `before`. */
    ghost predicate Kept(before: (Pc, Status, bool, bool, (seq<nat>, seq<nat>), bool))
      reads this
    {
      Private() == (pc, before.1, before.2, before.3, before.4, before.5)
    }

    /** The same of everything but the position and the result. */
    ghost predicate KeptButResult(before: (Pc, Status, bool, bool, (seq<nat>, seq<nat>), bool))
      reads this
    {
      Private() == (pc, result, before.2, before.3, before.4, before.5)
    }

    // -------------------------------------------------------------- draining the queue

    /** `cylpa_rx_queue_pkt_input`: drain the queue into the stack, whose input function refuses the packets
        listed in `refuse`. Those it takes are its own, the buffers of the others are released. */
    method RxQueuePktInput(schedule: seq<seq<Step>>, i: nat, refuse: set<nat>)
      requires Valid() && pc == AtDrain && !callback && log.inHand == []
      modifies this
      ensures Valid() && pc == AtResume && rxQueue == []
      ensures result == old(result) && !callback && (core == Owner.Handler) == old(core == Owner.Handler)
      ensures log.inHand == [] && foundSet == old(foundSet)
      ensures Settled(old(rxQueue), refuse, given, released) && Grown(old(given), old(released))
      ensures log.popped == old(log.popped) + old(rxQueue)
    {
      ghost var all, popped0, given0, released0 := rxQueue, log.popped, given, released;
      DrainLoop(schedule, i, refuse, all, popped0, given0, released0);
      LeaveDrain();
    }

    method DrainLoop(schedule: seq<seq<Step>>, i: nat, refuse: set<nat>, ghost all: seq<nat>, ghost popped0: seq<nat>,
                     ghost given0: seq<nat>, ghost released0: seq<nat>)
      requires Draining(Private()) && all == rxQueue && popped0 == log.popped && given0 == given && released0 == released
      modifies this
      ensures Draining(old(Private())) && rxQueue == [] && Drained(all, all, popped0, given0, released0, refuse)
    {
      var round := i;
      ghost var done: seq<nat> := [];
      while |rxQueue| != 0
        invariant Draining(old(Private()))
        invariant Drained(done, all, popped0, given0, released0, refuse)
        decreases |rxQueue|
      {
        ghost var next := rxQueue[0];
        DrainOne(schedule, round, refuse, done, all, popped0, given0, released0);
        done := done + [next];
        round := round + 2;
      }
      assert done == all;
    }

    /** `done` is the part of the queue `all` that has been drained. */
    ghost predicate Drained(done: seq<nat>, all: seq<nat>, popped0: seq<nat>, given0: seq<nat>, released0: seq<nat>,
                            refuse: set<nat>)
      reads this
    {
      && done + rxQueue == all && log.popped == popped0 + done
      && Settled(done, refuse, given, released) && Grown(given0, released0)
    }

    /** In the drain loop, with everything private but the record of popped packets as in `before`. */
    ghost predicate Draining(before: (Pc, Status, bool, bool, (seq<nat>, seq<nat>), bool))
      reads this
    {
      && Valid() && pc == AtDrain && !callback && log.inHand == []
      && result == before.1 && (core == Owner.Handler) == before.3 && foundSet == before.5
    }

    /** One round of the drain loop. */
    method DrainOne(schedule: seq<seq<Step>>, round: nat, refuse: set<nat>, ghost done: seq<nat>, ghost all: seq<nat>,
                    ghost popped0: seq<nat>, ghost given0: seq<nat>, ghost released0: seq<nat>)
      requires Draining(Private()) && rxQueue != [] && Drained(done, all, popped0, given0, released0, refuse)
      modifies this
      ensures Draining(old(Private())) && rxQueue == old(rxQueue)[1..]
      ensures Drained(done + [old(rxQueue)[0]], all, popped0, given0, released0, refuse)
    {
      Shift(done, rxQueue);
      Regroup(popped0, done, [rxQueue[0]]);
      OfferOne(schedule, round, refuse, done);
    }

    /** Offer the first packet of the queue, with the other threads running before and after. */
    method OfferOne(schedule: seq<seq<Step>>, round: nat, refuse: set<nat>, ghost done: seq<nat>)
      requires Draining(Private()) && rxQueue != [] && Settled(done, refuse, given, released)
      modifies this
      ensures Draining(old(Private()))
      ensures rxQueue == old(rxQueue)[1..] && log.popped == old(log.popped) + [old(rxQueue)[0]]
      ensures Settled(done + [old(rxQueue)[0]], refuse, given, released) && Grown(old(given), old(released))
    {
      var buf := Get();
      Others(schedule, round);
      Input(buf, buf !in refuse);
      StaysSettled(done, refuse, old(given), old(released), given, released);
      SettledOneMore(done, buf, refuse, given, released);
      ghost var given0, released0 := given, released;
      Others(schedule, round + 1);
      StaysSettled(done + [buf], refuse, given0, released0, given, released);
    }

    method LeaveDrain()
      requires Valid() && pc == AtDrain && rxQueue == []
      modifies this
      ensures Valid() && pc == AtResume && Kept(old(Private())) && TrafficView() == old(TrafficView())
    {
      ghost var n := NextDrain(holds, alone, View(), DrainNext);
      pc := AtResume;
      assert n == View();
    }

    /** `cy_rtos_queue_get`. */
    method Get() returns (buf: nat)
      requires Valid() && pc == AtDrain && rxQueue != [] && log.inHand == []
      modifies this
      ensures Valid() && pc == AtInput
      ensures buf == old(rxQueue)[0] && rxQueue == old(rxQueue)[1..] && log.inHand == [buf]
      ensures result == old(result) && callback == old(callback) && core == old(core) && foundSet == old(foundSet)
      ensures log.popped == old(log.popped) + [buf] && given == old(given) && released == old(released)
    {
      ghost var n := NextPop(holds, alone, View());
      buf := rxQueue[0];
      rxQueue := rxQueue[1..];
      log, pc := log.(inHand := [buf], popped := log.popped + [buf]), AtInput;
      assert n == View();
    }

    /** Offer a popped packet to the stack, or release its buffer when the stack refuses it. */
    method Input(buf: nat, taken: bool)
      requires Valid() && pc == AtInput && log.inHand == [buf]
      modifies this
      ensures Valid() && pc == AtDrain && rxQueue == old(rxQueue) && log.inHand == []
      ensures result == old(result) && callback == old(callback) && core == old(core) && foundSet == old(foundSet)
      ensures log.popped == old(log.popped)
      ensures given == old(given) + (if taken then [buf] else []) && released == old(released) + if taken then [] else [buf]
    {
      if taken {
        InputTaken(buf);
      } else {
        InputRefused(buf);
      }
    }

    method InputTaken(buf: nat)
      requires Valid() && pc == AtInput && log.inHand == [buf]
      modifies this
      ensures Valid() && pc == AtDrain && rxQueue == old(rxQueue) && log.inHand == [] && given == old(given) + [buf]
      ensures result == old(result) && callback == old(callback) && core == old(core) && foundSet == old(foundSet)
      ensures log.popped == old(log.popped) && released == old(released)
    {
      ghost var n := NextTaken(holds, alone, View(), buf);
      given := given + [buf];
      log, pc := log.(offered := log.offered + [buf], inHand := []), AtDrain;
      assert n == View();
    }

    method InputRefused(buf: nat)
      requires Valid() && pc == AtInput && log.inHand == [buf]
      modifies this
      ensures Valid() && pc == AtDrain && rxQueue == old(rxQueue) && log.inHand == [] && released == old(released) + [buf]
      ensures result == old(result) && callback == old(callback) && core == old(core) && foundSet == old(foundSet)
      ensures log.popped == old(log.popped) && given == old(given)
    {
      ghost var n := NextRefused(holds, alone, View(), buf);
      released := released + [buf];
      log, pc := log.(offered := log.offered + [buf], inHand := []), AtDrain;
      assert n == View();
    }

    // -------------------------------------------------------------- statements of wait_net_suspend

    method LockDeepSleep()
      requires Valid() && pc == AtLockDs
      modifies this
      ensures Valid() && pc == AtInactivity && Kept(old(Private()))
    {
      ghost var n := NextEntry(holds, alone, View(), LockDs);
      deepSleepLocks, pc := deepSleepLocks + 1, AtInactivity;
      assert n == View();
    }

    method Enter(connected: bool)
      requires Valid() && pc == Idle
      modifies this
      ensures Valid() && pc == (if connected then AtLockDs else Idle)
      ensures callback == old(callback) && log == old(log) && core == old(core) && foundSet == old(foundSet)
      ensures !connected ==> result == BadState
    {
      ghost var n := NextEntry(holds, alone, View(), Call(connected));
      if connected {
        eventValid := true;
        pc := AtLockDs;
      } else {
        result := BadState;
      }
      assert n == View();
    }

    /** The outcome of `cylpa_wait_net_inactivity`. */
    method AfterInactivity(status: Status)
      requires Valid() && pc == AtInactivity
      requires status == Success || status == InactivityTimeout || status == BadArgs
      modifies this
      ensures Valid() && pc == (if status == Success then AtSuspend else AtFinalUnlock) && result == status
      ensures KeptButResult(old(Private())) && (status != BadArgs ==> flags == NO_FLAGS)
    {
      if status == BadArgs {
        WindowRefused();
      } else if status == Success {
        FoundInactive();
      } else {
        FoundBusy();
      }
    }

    method WindowRefused()
      requires Valid() && pc == AtInactivity
      modifies this
      ensures Valid() && pc == AtFinalUnlock && result == BadArgs
      ensures KeptButResult(old(Private()))
    {
      ghost var n := NextEntry(holds, alone, View(), InactivityDone(BadArgs));
      result, pc := BadArgs, AtFinalUnlock;
      assert n == View();
    }

    method FoundInactive()
      requires Valid() && pc == AtInactivity
      modifies this
      ensures Valid() && pc == AtSuspend && result == Success && flags == NO_FLAGS
      ensures KeptButResult(old(Private()))
    {
      ghost var n := NextOutcome(holds, alone, View(), Success);
      result, flags, pc := Success, NO_FLAGS, AtSuspend;
      assert n == View();
    }

    method FoundBusy()
      requires Valid() && pc == AtInactivity
      modifies this
      ensures Valid() && pc == AtFinalUnlock && result == InactivityTimeout && flags == NO_FLAGS
      ensures KeptButResult(old(Private()))
    {
      ghost var n := NextOutcome(holds, alone, View(), InactivityTimeout);
      result, flags, pc := InactivityTimeout, NO_FLAGS, AtFinalUnlock;
      assert n == View();
    }

    method RegisterCallback()
      requires Valid() && pc == AtRegister
      modifies this
      ensures Valid() && pc == AtBranch && callback
      ensures result == old(result) && core == old(core) && log == old(log) && foundSet == old(foundSet)
    {
      ghost var n := NextSuspend(holds, alone, View(), Register);
      callback, pc := true, AtBranch;
      assert n == View();
    }

    method TakeBranch()
      requires Valid() && pc == AtBranch
      modifies this
      ensures Valid() && pc == (if result == Success then AtNotifySuspended else AtFinalUnlock) && Kept(old(Private()))
    {
      ghost var n := NextSuspend(holds, alone, View(), Branch);
      pc := if result == Success then AtNotifySuspended else AtFinalUnlock;
      assert n == View();
    }

    method TellSuspended()
      requires Valid() && pc == AtNotifySuspended
      modifies this
      ensures Valid() && pc == AtClear && Kept(old(Private()))
    {
      ghost var n := NextSleep(holds, alone, View(), NotifySuspended);
      pc := AtClear;
      assert n == View();
    }

    method ClearEventFlags()
      requires Valid() && pc == AtClear
      modifies this
      ensures Valid() && pc == AtDispatchSleep && Kept(old(Private())) && !flags.rx && !flags.tx
    {
      ghost var n := NextSleep(holds, alone, View(), ClearEvents);
      flags, pc := NO_FLAGS, AtDispatchSleep;
      assert n == View();
    }

    method OffloadsSleep()
      requires Valid() && pc == AtDispatchSleep
      modifies this
      ensures Valid() && pc == AtUnlockDs && Kept(old(Private())) && offloadsAsleep
    {
      ghost var n := NextSleep(holds, alone, View(), DispatchSleep);
      offloadsAsleep, pc := true, AtUnlockDs;
      assert n == View();
    }

    method AllowDeepSleep()
      requires Valid() && pc == AtUnlockDs
      modifies this
      ensures Valid() && pc == AtWait && Kept(old(Private()))
    {
      ghost var n := NextSleep(holds, alone, View(), UnlockDs);
      deepSleepLocks, pc := deepSleepLocks - 1, AtWait;
      assert n == View();
    }

    /** Wait for activity: when the wait does not time out, it lasts until some has happened. */
    method WaitForActivity(timeout: bool)
      requires Valid() && pc == AtWait
      modifies this
      ensures Valid() && pc == AtMutex && result == if timeout then WaitTimeout else NetActivity
      ensures KeptButResult(old(Private())) && (!timeout ==> flags == NO_FLAGS)
    {
      if !timeout && !flags.rx && !flags.tx {
        OnEmacActivity(false);
      }
      EndWait(timeout);
    }

    method EndWait(timeout: bool)
      requires Valid() && pc == AtWait && (timeout || flags.rx || flags.tx)
      modifies this
      ensures Valid() && pc == AtMutex && result == if timeout then WaitTimeout else NetActivity
      ensures KeptButResult(old(Private())) && (!timeout ==> flags == NO_FLAGS)
    {
      if timeout {
        TimedOut();
      } else {
        Awoken();
      }
    }

    method TimedOut()
      requires Valid() && pc == AtWait
      modifies this
      ensures Valid() && pc == AtMutex && result == WaitTimeout
      ensures KeptButResult(old(Private()))
    {
      ghost var n := NextWake(holds, alone, View(), WaitDone(true));
      result, pc := WaitTimeout, AtMutex;
      assert n == View();
    }

    method Awoken()
      requires Valid() && pc == AtWait && (flags.rx || flags.tx)
      modifies this
      ensures Valid() && pc == AtMutex && result == NetActivity && flags == NO_FLAGS
      ensures KeptButResult(old(Private()))
    {
      ghost var n := NextAwoken(holds, alone, View());
      result, flags, pc := NetActivity, NO_FLAGS, AtMutex;
      assert n == View();
    }

    method GetMutex(acquired: bool)
      requires Valid() && pc == AtMutex
      modifies this
      ensures Valid() && pc == AtRelockDs && Kept(old(Private())) && mutexHeld == acquired
    {
      ghost var n := NextWake(holds, alone, View(), TakeMutex(acquired));
      mutexHeld, pc := acquired, AtRelockDs;
      assert n == View();
    }

    method RelockDeepSleep()
      requires Valid() && pc == AtRelockDs
      modifies this
      ensures Valid() && pc == AtNotifyResuming && Kept(old(Private()))
    {
      ghost var n := NextWake(holds, alone, View(), RelockDs);
      deepSleepLocks, pc := deepSleepLocks + 1, AtNotifyResuming;
      assert n == View();
    }

    method TellResuming(elapsed: nat, waitMs: u32)
      requires Valid() && pc == AtNotifyResuming
      modifies this
      ensures Valid() && pc == AtDispatchAwake && result == if elapsed > waitMs then WaitTimeout else old(result)
      ensures KeptButResult(old(Private()))
    {
      ghost var n := NextWake(holds, alone, View(), NotifyResuming(elapsed > waitMs));
      if elapsed > waitMs {
        result := WaitTimeout;
      }
      pc := AtDispatchAwake;
      assert n == View();
    }

    method OffloadsAwake()
      requires Valid() && pc == AtDispatchAwake
      modifies this
      ensures Valid() && pc == AtDeregister && Kept(old(Private())) && !offloadsAsleep
    {
      ghost var n := NextDrain(holds, alone, View(), DispatchAwake);
      offloadsAsleep, pc := false, AtDeregister;
      assert n == View();
    }

    method DeregisterCallback()
      requires Valid() && pc == AtDeregister
      modifies this
      ensures Valid() && pc == AtDrain && !callback
      ensures result == old(result) && core == old(core) && log == old(log) && foundSet == old(foundSet)
    {
      ghost var n := NextDrain(holds, alone, View(), Deregister);
      callback, pc := false, AtDrain;
      assert n == View();
    }

    method ReleaseMutex()
      requires Valid() && pc == AtSetMutex
      modifies this
      ensures Valid() && pc == AtFinalUnlock && Kept(old(Private()))
      ensures TrafficView() == old(TrafficView()) && !mutexHeld
    {
      ghost var n := NextReturn(holds, alone, View(), SetMutex);
      mutexHeld, pc := false, AtFinalUnlock;
      assert n == View();
    }

    method FinallyAllowDeepSleep()
      requires Valid() && pc == AtFinalUnlock
      modifies this
      ensures Valid() && pc == Idle && Kept(old(Private()))
      ensures TrafficView() == old(TrafficView()) && mutexHeld == old(mutexHeld)
    {
      ghost var n := NextReturn(holds, alone, View(), FinalUnlock);
      deepSleepLocks, pc := deepSleepLocks - 1, Idle;
      assert n == View();
    }

    // -------------------------------------------------------------- wait_net_suspend

    /** What the surroundings do during one call: whether the interface is up and connected, the activity
        the inactivity wait will see, whether the second wait times out and how long it was, whether the
        mutex is acquired, and which packets the stack refuses. The callback a call leaves is that of the last
        test of the suspended flag; without a test, the one it found. */
    method WaitNetSuspend(waitMs: u32, interval: u32, window: u32, connected: bool, start: nat, acts: seq<nat>,
                          timeout: bool, elapsed: nat, acquired: bool, refuse: set<nat>, schedule: seq<seq<Step>>)
      returns (state: Status, returned: bool)
      requires Valid() && AtRest() && InactivityWait.Ordered(start, acts)
      modifies this
      ensures Valid() && log.inHand == []
      ensures if returned then AtRest() && result == state else LockLost()
      ensures !connected ==> returned && state == BadState
      ensures connected && interval <= window ==> returned && state == BadArgs
      ensures connected && interval > window ==>
                if !BecomesInactive(start, acts, interval, window) then returned && state == InactivityTimeout
                else if foundSet then returned && state == BadState
                else returned ==> state == if timeout || elapsed > waitMs then WaitTimeout else NetActivity
      ensures returned ==>
                callback == if connected && interval > window && BecomesInactive(start, acts, interval, window) then foundSet
                            else old(callback)
      ensures old(log.popped) <= log.popped
      ensures if connected && interval > window && BecomesInactive(start, acts, interval, window) && !foundSet && returned
              then rxQueue == [] && !mutexHeld && Settled(log.popped[|old(log.popped)|..], refuse, given, released)
              else log.popped == old(log.popped)
    {
      Enter(connected);
      if !connected {
        return BadState, true;
      }
      state, returned := WhileConnected(waitMs, interval, window, start, acts, timeout, elapsed, acquired, refuse, schedule);
    }

    /** The call with the interface up and connected. */
    method WhileConnected(waitMs: u32, interval: u32, window: u32, start: nat, acts: seq<nat>,
                          timeout: bool, elapsed: nat, acquired: bool, refuse: set<nat>, schedule: seq<seq<Step>>)
      returns (state: Status, returned: bool)
      requires Valid() && pc == AtLockDs && log.inHand == [] && InactivityWait.Ordered(start, acts)
      modifies this
      ensures Valid() && log.inHand == []
      ensures if returned then pc == Idle && result == state else LockLost()
      ensures interval <= window ==> returned && state == BadArgs
      ensures interval > window && !BecomesInactive(start, acts, interval, window) ==> returned && state == InactivityTimeout
      ensures interval <= window || !BecomesInactive(start, acts, interval, window) ==>
                callback == old(callback) && log.popped == old(log.popped)
      ensures interval > window && BecomesInactive(start, acts, interval, window) ==>
                && (foundSet ==> returned && state == BadState)
                && (returned && !foundSet ==> state == if timeout || elapsed > waitMs then WaitTimeout else NetActivity)
                && (returned ==> callback == foundSet)
                && old(log.popped) <= log.popped
                && if !foundSet && returned
                   then rxQueue == [] && !mutexHeld && Settled(log.popped[|old(log.popped)|..], refuse, given, released)
                   else log.popped == old(log.popped)
    {
      state := WaitInactive(interval, window, start, acts, schedule);
      returned := true;
      if state == Success {
        state, returned := SuspendAndWait(waitMs, timeout, elapsed, acquired, refuse, schedule);
      }
      if returned {
        FinallyAllowDeepSleep();
      }
    }

    /** The inactivity wait ends in success. */
    predicate BecomesInactive(start: nat, acts: seq<nat>, interval: u32, window: u32)
      requires InactivityWait.Ordered(start, acts)
    {
      InactivityWait.Loop(start, acts, 0, start, interval, window).status == InactivityWait.Success
    }

    /** The result of `cylpa_wait_net_inactivity` as a result of the call. */
    method StatusOfWait(interval: u32, window: u32, start: nat, acts: seq<nat>) returns (state: Status)
      requires InactivityWait.Ordered(start, acts)
      ensures interval <= window ==> state == BadArgs
      ensures interval > window ==>
                state == if BecomesInactive(start, acts, interval, window) then Success else InactivityTimeout
    {
      var wait := InactivityWait.WaitNetInactivity(interval, window, start, acts);
      if interval > window {
        InactivityWait.LoopStatus(start, acts, 0, start, interval, window);
      }
      state := if wait.status == InactivityWait.Success then Success
               else if wait.status == InactivityWait.TimeoutExpired then InactivityTimeout else BadArgs;
    }

    /** Up to the outcome of the inactivity wait. */
    method WaitInactive(interval: u32, window: u32, start: nat, acts: seq<nat>, schedule: seq<seq<Step>>)
      returns (state: Status)
      requires Valid() && pc == AtLockDs && InactivityWait.Ordered(start, acts) && log.inHand == []
      modifies this
      ensures Valid() && pc == (if state == Success then AtSuspend else AtFinalUnlock) && result == state
      ensures callback == old(callback) && log.inHand == [] && log.popped == old(log.popped)
      ensures interval <= window ==> state == BadArgs
      ensures interval > window ==>
                state == if BecomesInactive(start, acts, interval, window) then Success else InactivityTimeout
    {
      Others(schedule, 0);
      LockDeepSleep();
      Others(schedule, 1);
      state := StatusOfWait(interval, window, start, acts);
      AfterInactivity(state);
      Others(schedule, 2);
    }

    /** With the network inactive: suspend the stack, sleep, resume. */
    method SuspendAndWait(waitMs: u32, timeout: bool, elapsed: nat, acquired: bool, refuse: set<nat>,
                          schedule: seq<seq<Step>>)
      returns (state: Status, returned: bool)
      requires Valid() && pc == AtSuspend && log.inHand == []
      modifies this
      ensures Valid() && log.inHand == [] && (!returned ==> LockLost() && !foundSet)
      ensures returned ==> pc == AtFinalUnlock && result == state && callback == foundSet
      ensures returned ==>
                state == if foundSet then BadState else if timeout || elapsed > waitMs then WaitTimeout else NetActivity
      ensures old(log.popped) <= log.popped
      ensures if returned && !foundSet
              then rxQueue == [] && !mutexHeld && Settled(log.popped[|old(log.popped)|..], refuse, given, released)
              else log.popped == old(log.popped)
    {
      state, returned := SuspendNs(schedule, 3);
      if !returned {
        return;
      }
      Others(schedule, 5);
      RegisterCallback();
      Others(schedule, 6);
      TakeBranch();
      Others(schedule, 7);
      if state == Success {
        state := WhileAsleep(waitMs, timeout, elapsed, acquired, refuse, schedule);
      }
    }

    /** The body of the branch with the stack suspended. */
    method WhileAsleep(waitMs: u32, timeout: bool, elapsed: nat, acquired: bool, refuse: set<nat>,
                       schedule: seq<seq<Step>>)
      returns (state: Status)
      requires Valid() && pc == AtNotifySuspended && callback && log.inHand == []
      modifies this
      ensures Valid() && pc == AtFinalUnlock && !callback && log.inHand == [] && foundSet == old(foundSet)
      ensures result == state == if timeout || elapsed > waitMs then WaitTimeout else NetActivity
      ensures old(log.popped) <= log.popped && rxQueue == [] && !mutexHeld
      ensures Settled(log.popped[|old(log.popped)|..], refuse, given, released)
    {
      SleepAndWake(waitMs, timeout, elapsed, acquired, schedule);
      state := result;
      Others(schedule, 15);
      OffloadsAwake();
      Others(schedule, 16);
      DeliverAndResume(refuse, schedule);
    }

    /** From telling the application to being awake again. */
    method SleepAndWake(waitMs: u32, timeout: bool, elapsed: nat, acquired: bool, schedule: seq<seq<Step>>)
      requires Valid() && pc == AtNotifySuspended && callback && log.inHand == []
      modifies this
      ensures Valid() && pc == AtDispatchAwake && KeptButResult(old(Private()))
      ensures result == if timeout || elapsed > waitMs then WaitTimeout else NetActivity
    {
      TellSuspended();
      Others(schedule, 8);
      ClearEventFlags();
      Others(schedule, 9);
      OffloadsSleep();
      Others(schedule, 10);
      AllowDeepSleep();
      Others(schedule, 11);
      WaitForActivity(timeout);
      Others(schedule, 12);
      GetMutex(acquired);
      Others(schedule, 13);
      RelockDeepSleep();
      Others(schedule, 14);
      TellResuming(elapsed, waitMs);
    }

    /** From clearing the callback to releasing the mutex. */
    method DeliverAndResume(refuse: set<nat>, schedule: seq<seq<Step>>)
      requires Valid() && pc == AtDeregister && log.inHand == []
      modifies this
      ensures Valid() && pc == AtFinalUnlock && !callback && log.inHand == [] && foundSet == old(foundSet)
      ensures result == old(result) && rxQueue == [] && !mutexHeld
      ensures old(log.popped) <= log.popped
      ensures Settled(log.popped[|old(log.popped)|..], refuse, given, released)
    {
      DeregisterCallback();
      Others(schedule, 17);
      ghost var waiting := rxQueue;
      RxQueuePktInput(schedule, 21, refuse);
      ghost var given0, released0 := given, released;
      ResumeAndRelease(schedule);
      StaysSettled(waiting, refuse, given0, released0, given, released);
      assert log.popped[|old(log.popped)|..] == waiting;
    }

    method ResumeAndRelease(schedule: seq<seq<Step>>)
      requires Valid() && pc == AtResume && !callback && log.inHand == []
      modifies this
      ensures Valid() && pc == AtFinalUnlock && !callback && log.inHand == [] && foundSet == old(foundSet)
      ensures result == old(result) && rxQueue == old(rxQueue) && !mutexHeld
      ensures log.popped == old(log.popped) && Grown(old(given), old(released))
    {
      Others(schedule, 18);
      var _ := ResumeNs(schedule, 19);
      Others(schedule, 20);
      ReleaseMutex();
    }
  }

  // ---------------------------------------------------------------- the code is safe

  /** What the handler keeps holds of reachable protocol states only. */
  ghost predicate OnlyReachable(h: Handler) {
    forall s :: h.holds(s) ==> Reachable(s, h.alone)
  }

  /** A handler that keeps reachability; by its methods' contracts it goes on keeping it. */
  method CreateHandler(alone: bool) returns (h: Handler)
    ensures fresh(h) && h.Valid() && h.AtRest() && h.alone == alone && OnlyReachable(h)
  {
    ReachableClosed(alone);
    h := new Handler(s => Reachable(s, alone), alone);
  }

  /** With nothing else suspending the stack, everything proved of the protocol's locks holds of the executing
      code's own fields at every moment, and no call fails to return. */
  lemma HandlerSafe(h: Handler)
    requires h.Valid() && OnlyReachable(h) && h.alone
    ensures Safe(h.ControlView(), h.TrafficView()) && !h.LockLost()
  {
    assert Reachable(h.View(), h.alone);
    var steps :| Run(INITIAL, steps) == Some(h.View()) && (h.alone ==> SingleCaller(steps));
    SuspendSafety(steps, h.View());
    RunKeepsAlone(steps, h.View());
  }

  /** Whatever other threads do: the deep-sleep lock is balanced, every packet is queued, in hand, given to the
      stack or released, once, and the queue is first in, first out. */
  lemma HandlerConserves(h: Handler, p: nat)
    requires h.Valid() && OnlyReachable(h)
    ensures DeepSleepSafe(h.ControlView()) && |h.rxQueue| <= QUEUE_LENGTH
    ensures Places(h.TrafficView(), p) == if p < h.arrived then 1 else 0
    ensures Increasing(h.log.queuedEver) && QueuedOf(h.log.offered, h.log.queuedEver) + (h.log.inHand + h.rxQueue) == h.log.queuedEver
  {
    assert Reachable(h.View(), h.alone);
    var steps :| Run(INITIAL, steps) == Some(h.View()) && (h.alone ==> SingleCaller(steps));
    DeepSleepBalanced(steps, h.View());
    PacketsConserved(steps, h.View(), p);
    QueuedInArrivalOrder(steps, h.View());
  }
}
