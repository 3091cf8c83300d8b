/** Where the packets are during the suspend/resume protocol: conservation, the bound of the RX queue, and the
    order in which packets leave it. */
module SuspendTraffic {
  import opened SuspendProtocol

  // ---------------------------------------------------------------- conservation

  function Count(q: seq<nat>, p: nat): nat {
    if q == [] then 0 else Count(q[..|q| - 1], p) + if q[|q| - 1] == p then 1 else 0
  }

  lemma CountAppend(q: seq<nat>, x: nat, p: nat)
    ensures Count(q + [x], p) == Count(q, p) + if x == p then 1 else 0
  {
    assert (q + [x])[..|q|] == q;
  }

  lemma {:induction false} CountFirst(q: seq<nat>, p: nat)
    requires q != []
    ensures Count(q, p) == Count(q[1..], p) + if q[0] == p then 1 else 0
  {
    var n := |q| - 1;
    if n > 0 {
      CountFirst(q[..n], p);
      assert q[1..][..n - 1] == q[..n][1..];
    }
  }

  /** In how many places packet `p` is. */
  function Places(t: Traffic, p: nat): nat {
    Count(t.queue, p) + Count(t.inHand, p) + Count(t.given, p) + Count(t.released, p)
  }

  /** Packet `p` is in one place once it has arrived. */
  predicate Conserved(t: Traffic, p: nat) {
    Places(t, p) == if p < t.arrived then 1 else 0
  }

  lemma ConservedQueued(t: Traffic, p: nat)
    requires Conserved(t, p) && |t.queue| < QUEUE_LENGTH
    ensures Conserved(ArriveStep(t, true, true), p)
  {
    CountAppend(t.queue, t.arrived, p);
  }

  lemma ConservedDropped(t: Traffic, p: nat)
    requires Conserved(t, p) && |t.queue| >= QUEUE_LENGTH
    ensures Conserved(ArriveStep(t, true, true), p)
  {
    CountAppend(t.released, t.arrived, p);
  }

  lemma ConservedAccepted(t: Traffic, p: nat)
    requires Conserved(t, p)
    ensures Conserved(ArriveStep(t, false, true), p)
  {
    CountAppend(t.given, t.arrived, p);
  }

  lemma ConservedDeclined(t: Traffic, p: nat)
    requires Conserved(t, p)
    ensures Conserved(ArriveStep(t, false, false), p)
  {
    CountAppend(t.released, t.arrived, p);
  }

  lemma ConservedArrive(t: Traffic, callback: bool, accepted: bool, p: nat)
    requires Conserved(t, p)
    ensures Conserved(ArriveStep(t, callback, accepted), p)
  {
    if !callback {
      if accepted {
        ConservedAccepted(t, p);
      } else {
        ConservedDeclined(t, p);
      }
    } else {
      assert ArriveStep(t, true, accepted) == ArriveStep(t, true, true);
      if |t.queue| < QUEUE_LENGTH {
        ConservedQueued(t, p);
      } else {
        ConservedDropped(t, p);
      }
    }
  }

  lemma ConservedPop(t: Traffic, p: nat)
    requires Conserved(t, p)
    ensures Conserved(PopStep(t), p)
  {
    if t.queue != [] {
      CountFirst(t.queue, p);
      CountAppend(t.inHand, t.queue[0], p);
    }
  }

  lemma ConservedTaken(t: Traffic, p: nat)
    requires Conserved(t, p) && t.inHand != []
    ensures Conserved(InputStep(t, true), p)
  {
    CountFirst(t.inHand, p);
    CountAppend(t.given, t.inHand[0], p);
  }

  lemma ConservedRefused(t: Traffic, p: nat)
    requires Conserved(t, p) && t.inHand != []
    ensures Conserved(InputStep(t, false), p)
  {
    CountFirst(t.inHand, p);
    CountAppend(t.released, t.inHand[0], p);
  }

  lemma ConservedInput(t: Traffic, taken: bool, p: nat)
    requires Conserved(t, p)
    ensures Conserved(InputStep(t, taken), p)
  {
    if t.inHand != [] {
      if taken {
        ConservedTaken(t, p);
      } else {
        ConservedRefused(t, p);
      }
    }
  }

  lemma ConservedKept(s: State, a: Step, p: nat)
    requires Conserved(s.t, p)
    ensures Conserved(TrafficStep(s, a), p)
  {
    if a.Arrive? {
      ConservedArrive(s.t, s.c.callback, a.accepted, p);
    } else if a.DrainNext? {
      ConservedPop(s.t, p);
    } else if a.InputDone? {
      ConservedInput(s.t, a.taken, p);
    }
  }

  /** What a step hands to the stack: a packet that arrives without the callback and is accepted, and one out of the
      queue that the stack takes. */
  function HandedOver(s: State, a: Step): seq<nat> {
    match a
    case Arrive(true) => if s.c.callback then [] else [s.t.arrived]
    case InputDone(true) => if s.t.inHand == [] then [] else [s.t.inHand[0]]
    case _ => []
  }

  /** What a step releases: a packet that the stack does not take, and one that finds the queue full. */
  function LetGo(s: State, a: Step): seq<nat> {
    match a
    case Arrive(accepted) =>
      if s.c.callback then (if |s.t.queue| == QUEUE_LENGTH then [s.t.arrived] else [])
      else if accepted then [] else [s.t.arrived]
    case InputDone(false) => if s.t.inHand == [] then [] else [s.t.inHand[0]]
    case _ => []
  }

  /** The fate of every packet: nothing else is given to the stack or released. */
  lemma FateOfPackets(s: State, a: Step)
    requires |s.t.queue| <= QUEUE_LENGTH
    ensures TrafficStep(s, a).given == s.t.given + HandedOver(s, a)
    ensures TrafficStep(s, a).released == s.t.released + LetGo(s, a)
  {
  }

  // ---------------------------------------------------------------- rising sequences

  /** Strictly increasing, built from the left. */
  predicate Rising(q: seq<nat>) {
    |q| <= 1 || (q[|q| - 2] < q[|q| - 1] && Rising(q[..|q| - 1]))
  }

  /** Everything in `q` is smaller than `n`. */
  predicate AllBelow(q: seq<nat>, n: nat) {
    forall i | 0 <= i < |q| :: q[i] < n
  }

  /** Arrival order. */
  predicate Increasing(q: seq<nat>) {
    forall i, j | 0 <= i < j < |q| :: q[i] < q[j]
  }

  lemma {:induction false} RisingIsIncreasing(q: seq<nat>)
    ensures Rising(q) <==> Increasing(q)
  {
    if Rising(q) {
      forall i, j | 0 <= i < j < |q|
        ensures q[i] < q[j]
      {
        RisingAt(q, i, j);
      }
    }
    if Increasing(q) {
      IncreasingRises(q, |q|);
      assert q[..|q|] == q;
    }
  }

  lemma {:induction false} RisingAt(q: seq<nat>, i: nat, j: nat)
    requires Rising(q) && i < j < |q|
    ensures q[i] < q[j]
  {
    var n := |q| - 1;
    if j < n {
      RisingAt(q[..n], i, j);
    } else if i < n - 1 {
      RisingAt(q[..n], i, n - 1);
    }
  }

  lemma {:induction false} IncreasingRises(q: seq<nat>, n: nat)
    requires Increasing(q) && n <= |q|
    ensures Rising(q[..n])
  {
    if n > 1 {
      IncreasingRises(q, n - 1);
      assert q[..n][..n - 1] == q[..n - 1];
    }
  }

  /** Appending something larger than all that went before keeps both order and disorder. */
  lemma RisingAppend(q: seq<nat>, p: nat)
    requires AllBelow(q, p)
    ensures Rising(q + [p]) <==> Rising(q)
  {
    assert (q + [p])[..|q|] == q;
  }

  lemma {:induction false} RisingPrefix(a: seq<nat>, b: seq<nat>)
    requires Rising(a + b)
    ensures Rising(a)
  {
    forall i, j | 0 <= i < j < |a|
      ensures a[i] < a[j]
    {
      RisingAt(a + b, i, j);
    }
    RisingIsIncreasing(a);
  }

  /** A smaller packet behind a larger one is out of order. */
  lemma {:induction false} NotRising(before: seq<nat>, p: nat, after: seq<nat>)
    requires after != [] && after[0] < p
    ensures !Rising(before + [p] + after)
  {
    var q := before + [p] + after;
    if Rising(q) {
      RisingAt(q, |before|, |before| + 1);
    }
  }

  // ---------------------------------------------------------------- order of the queue

  /** The packets of `offered` that once were queued, in the order they were offered. */
  function QueuedOf(offered: seq<nat>, queuedEver: seq<nat>): seq<nat> {
    if offered == [] then []
    else
      var p := offered[|offered| - 1];
      QueuedOf(offered[..|offered| - 1], queuedEver) + if p in queuedEver then [p] else []
  }

  lemma QueuedOfAppend(offered: seq<nat>, p: nat, queuedEver: seq<nat>)
    ensures QueuedOf(offered + [p], queuedEver)
         == QueuedOf(offered, queuedEver) + if p in queuedEver then [p] else []
  {
    assert (offered + [p])[..|offered|] == offered;
  }

  /** Queueing a packet that was not offered yet changes nothing about those that were. */
  lemma {:induction false} QueuedOfGrows(offered: seq<nat>, queuedEver: seq<nat>, p: nat)
    requires AllBelow(offered, p)
    ensures QueuedOf(offered, queuedEver + [p]) == QueuedOf(offered, queuedEver)
  {
    if offered != [] {
      QueuedOfGrows(offered[..|offered| - 1], queuedEver, p);
    }
  }

  /** The packets waiting to be offered, in the order they will be. */
  function Waiting(t: Traffic): seq<nat> {
    t.inHand + t.queue
  }

  /** First in, first out: what ever entered the queue entered in arrival order, and is what was offered out of
      it, in that order, followed by what is still waiting. */
  predicate InOrder(queuedEver: seq<nat>, arrived: nat, offered: seq<nat>, popped: seq<nat>, inHand: seq<nat>,
                      queue: seq<nat>) {
    && Rising(queuedEver) && AllBelow(queuedEver, arrived) && AllBelow(offered, arrived)
    && popped == QueuedOf(offered, queuedEver) + inHand
    && queuedEver == popped + queue
  }

  predicate Fifo(t: Traffic) {
    InOrder(t.queuedEver, t.arrived, t.offered, t.popped, t.inHand, t.queue)
  }

  /** The stack's order is arrival order as long as no packet has overtaken. */
  predicate Overall(t: Traffic) {
    !t.overtaken <==> Rising(t.offered + Waiting(t))
  }

  lemma Regroup(a: seq<nat>, b: seq<nat>, c: seq<nat>)
    ensures (a + b) + c == a + (b + c)
  {
  }

  lemma {:induction false} SuffixBelow(a: seq<nat>, b: seq<nat>, n: nat)
    requires AllBelow(a + b, n)
    ensures AllBelow(b, n)
  {
    forall i | 0 <= i < |b|
      ensures b[i] < n
    {
      assert (a + b)[|a| + i] == b[i];
    }
  }

  lemma WaitingBelow(t: Traffic)
    requires Fifo(t)
    ensures t.queuedEver == QueuedOf(t.offered, t.queuedEver) + Waiting(t)
    ensures AllBelow(Waiting(t), t.arrived)
  {
    Regroup(QueuedOf(t.offered, t.queuedEver), t.inHand, t.queue);
    SuffixBelow(QueuedOf(t.offered, t.queuedEver), Waiting(t), t.arrived);
  }

  lemma AllBelowMore(q: seq<nat>, p: nat)
    requires AllBelow(q, p)
    ensures AllBelow(q, p + 1) && AllBelow(q + [p], p + 1)
  {
  }

  lemma Enqueues(queuedEver: seq<nat>, p: nat, offered: seq<nat>, popped: seq<nat>, inHand: seq<nat>, queue: seq<nat>)
    requires InOrder(queuedEver, p, offered, popped, inHand, queue)
    ensures InOrder(queuedEver + [p], p + 1, offered, popped, inHand, queue + [p])
  {
    RisingAppend(queuedEver, p);
    AllBelowMore(queuedEver, p);
    AllBelowMore(offered, p);
    QueuedOfGrows(offered, queuedEver, p);
    Regroup(popped, queue, [p]);
  }

  lemma FifoQueued(t: Traffic)
    requires Fifo(t) && |t.queue| < QUEUE_LENGTH
    ensures Fifo(ArriveStep(t, true, true))
  {
    Enqueues(t.queuedEver, t.arrived, t.offered, t.popped, t.inHand, t.queue);
  }

  lemma OffersDirectly(queuedEver: seq<nat>, p: nat, offered: seq<nat>, popped: seq<nat>, inHand: seq<nat>, queue: seq<nat>)
    requires InOrder(queuedEver, p, offered, popped, inHand, queue)
    ensures InOrder(queuedEver, p + 1, offered + [p], popped, inHand, queue)
  {
    AllBelowMore(queuedEver, p);
    AllBelowMore(offered, p);
    assert p !in queuedEver;
    QueuedOfAppend(offered, p, queuedEver);
  }

  lemma FifoDirect(t: Traffic, accepted: bool)
    requires Fifo(t)
    ensures Fifo(ArriveStep(t, false, accepted))
  {
    OffersDirectly(t.queuedEver, t.arrived, t.offered, t.popped, t.inHand, t.queue);
  }

  lemma FifoArrive(t: Traffic, callback: bool, accepted: bool)
    requires Fifo(t)
    ensures Fifo(ArriveStep(t, callback, accepted))
  {
    if !callback {
      FifoDirect(t, accepted);
    } else if |t.queue| < QUEUE_LENGTH {
      FifoQueued(t);
    } else {
      AllBelowMore(t.queuedEver, t.arrived);
      AllBelowMore(t.offered, t.arrived);
    }
  }

  lemma Shift(a: seq<nat>, h: seq<nat>)
    requires h != []
    ensures a + h == (a + [h[0]]) + h[1..]
  {
  }

  lemma Dequeues(queuedEver: seq<nat>, n: nat, offered: seq<nat>, popped: seq<nat>, inHand: seq<nat>, queue: seq<nat>)
    requires InOrder(queuedEver, n, offered, popped, inHand, queue) && queue != []
    ensures InOrder(queuedEver, n, offered, popped + [queue[0]], inHand + [queue[0]], queue[1..])
  {
    Shift(popped, queue);
    Regroup(QueuedOf(offered, queuedEver), inHand, [queue[0]]);
  }

  lemma FifoPop(t: Traffic)
    requires Fifo(t)
    ensures Fifo(PopStep(t))
  {
    if t.queue != [] {
      Dequeues(t.queuedEver, t.arrived, t.offered, t.popped, t.inHand, t.queue);
    }
  }

  lemma {:induction false} AllBelowAppend(q: seq<nat>, p: nat, n: nat)
    requires AllBelow(q, n) && p < n
    ensures AllBelow(q + [p], n)
  {
  }

  lemma Offers(queuedEver: seq<nat>, n: nat, offered: seq<nat>, popped: seq<nat>, inHand: seq<nat>, queue: seq<nat>)
    requires InOrder(queuedEver, n, offered, popped, inHand, queue) && inHand != []
    ensures InOrder(queuedEver, n, offered + [inHand[0]], popped, inHand[1..], queue)
  {
    var k := |QueuedOf(offered, queuedEver)|;
    assert popped[k] == inHand[0] && queuedEver[k] == popped[k];
    QueuedOfAppend(offered, inHand[0], queuedEver);
    Shift(QueuedOf(offered, queuedEver), inHand);
    AllBelowAppend(offered, inHand[0], n);
  }

  lemma FifoInput(t: Traffic, taken: bool)
    requires Fifo(t)
    ensures Fifo(InputStep(t, taken))
  {
    if t.inHand != [] {
      Offers(t.queuedEver, t.arrived, t.offered, t.popped, t.inHand, t.queue);
    }
  }

  lemma FifoKept(s: State, a: Step, u: Traffic)
    requires Fifo(s.t) && u == TrafficStep(s, a)
    ensures Fifo(u)
  {
    if a.Arrive? {
      FifoArrive(s.t, s.c.callback, a.accepted);
    } else if a.DrainNext? {
      FifoPop(s.t);
    } else if a.InputDone? {
      FifoInput(s.t, a.taken);
    } else {
      assert u == s.t;
    }
  }

  lemma {:induction false} AllBelowConcat(a: seq<nat>, b: seq<nat>, n: nat)
    requires AllBelow(a, n) && AllBelow(b, n)
    ensures AllBelow(a + b, n)
  {
  }

  lemma OverallQueued(t: Traffic)
    requires Fifo(t) && Overall(t) && |t.queue| < QUEUE_LENGTH
    ensures Overall(ArriveStep(t, true, true))
  {
    WaitingBelow(t);
    Regroup(t.inHand, t.queue, [t.arrived]);
    Regroup(t.offered, Waiting(t), [t.arrived]);
    AllBelowConcat(t.offered, Waiting(t), t.arrived);
    RisingAppend(t.offered + Waiting(t), t.arrived);
  }

  lemma OverallDirect(t: Traffic, accepted: bool)
    requires Fifo(t) && Overall(t)
    ensures Overall(ArriveStep(t, false, accepted))
  {
    WaitingBelow(t);
    if Waiting(t) == [] {
      assert t.offered + Waiting(t) == t.offered && (t.offered + [t.arrived]) + Waiting(t) == t.offered + [t.arrived];
      RisingAppend(t.offered, t.arrived);
    } else {
      NotRising(t.offered, t.arrived, Waiting(t));
    }
  }

  lemma OverallArrive(t: Traffic, callback: bool, accepted: bool)
    requires Fifo(t) && Overall(t)
    ensures Overall(ArriveStep(t, callback, accepted))
  {
    if !callback {
      OverallDirect(t, accepted);
    } else if |t.queue| < QUEUE_LENGTH {
      OverallQueued(t);
    }
  }

  lemma OverallPop(t: Traffic)
    requires Overall(t)
    ensures Overall(PopStep(t))
  {
    if t.queue != [] {
      assert Waiting(PopStep(t)) == Waiting(t);
    }
  }

  lemma MovesOver(offered: seq<nat>, inHand: seq<nat>, queue: seq<nat>)
    requires inHand != []
    ensures (offered + [inHand[0]]) + (inHand[1..] + queue) == offered + (inHand + queue)
  {
    Regroup(offered, inHand, queue);
    Shift(offered, inHand);
    Regroup(offered + [inHand[0]], inHand[1..], queue);
  }

  lemma OverallInput(t: Traffic, taken: bool)
    requires Overall(t)
    ensures Overall(InputStep(t, taken))
  {
    if t.inHand != [] {
      MovesOver(t.offered, t.inHand, t.queue);
    }
  }

  lemma OverallKept(s: State, a: Step)
    requires Fifo(s.t) && Overall(s.t)
    ensures Overall(TrafficStep(s, a))
  {
    if a.Arrive? {
      OverallArrive(s.t, s.c.callback, a.accepted);
    } else if a.DrainNext? {
      OverallPop(s.t);
    } else if a.InputDone? {
      OverallInput(s.t, a.taken);
    }
  }

  // ---------------------------------------------------------------- queue, position and callback

  /** Packets wait only while the callback is registered or the queue is being drained; at most one is in hand. */
  predicate QueueInv(c: Control, t: Traffic) {
    && (t.queue != [] ==> c.callback || InDrain(c.pc))
    && |t.inHand| == (if c.pc == AtInput then 1 else 0)
    && |t.queue| <= QUEUE_LENGTH
  }

  /** A step of no drain statement leaves the callback registered, or leads into the drain loop. */
  lemma CallbackOrDrain(s: State, a: Step)
    requires Enabled(s.c, a) && !a.DrainNext? && !a.InputDone?
    ensures (s.c.callback || InDrain(s.c.pc)) ==> ControlStep(s, a).callback || InDrain(ControlStep(s, a).pc)
    ensures ControlStep(s, a).pc == AtInput <==> s.c.pc == AtInput
  {
    if IsOther(a) {
      OtherLeavesPc(s.c, a);
    } else if IsEntry(a) {
      EntryLeavesDrain(s.c, a);
    } else if IsSuspend(a) {
      SuspendLeavesDrain(s.c, a);
    } else if IsSleep(a) {
      SleepLeavesDrain(s.c, a);
    } else if IsWake(a) {
      WakeLeavesDrain(s.c, a);
    } else if IsDrain(a) {
      assert a == DispatchAwake || a == Deregister;
    } else {
      ReturnLeavesDrain(s.c, a);
    }
  }

  lemma OutsideLeavesPc(c: Control, a: Step)
    requires IsOutside(a)
    ensures OutsideStep(c, a).pc == c.pc && OutsideStep(c, a).callback == c.callback
  {
  }

  lemma OtherLeavesPc(c: Control, a: Step)
    requires IsOther(a)
    ensures OtherStep(c, a).pc == c.pc && OtherStep(c, a).callback == c.callback
  {
    if IsOutside(a) {
      OutsideLeavesPc(c, a);
    }
  }

  lemma EntryLeavesDrain(c: Control, a: Step)
    requires IsEntry(a)
    ensures EntryStep(c, a).callback == c.callback && EntryPc(a) != AtInput && !InDrain(EntryPc(a))
    ensures c.pc == EntryPc(a) ==> EntryStep(c, a).pc != AtInput
  {
    if a.Call? {
      assert EntryPc(a) == Idle;
    } else if a.LockDs? {
      assert EntryPc(a) == AtLockDs;
    } else {
      assert EntryPc(a) == AtInactivity;
    }
  }

  lemma SuspendLeavesDrain(c: Control, a: Step)
    requires IsSuspend(a)
    ensures (c.callback ==> SuspendStep(c, a).callback) && !InDrain(SuspendPc(a)) && SuspendStep(c, a).pc != AtInput
  {
  }

  lemma SleepLeavesDrain(c: Control, a: Step)
    requires IsSleep(a)
    ensures SleepStep(c, a).callback == c.callback && !InDrain(SleepPc(a)) && SleepStep(c, a).pc != AtInput
  {
  }

  lemma WakeLeavesDrain(c: Control, a: Step)
    requires IsWake(a)
    ensures WakeStep(c, a).callback == c.callback && !InDrain(WakePc(a)) && WakeStep(c, a).pc != AtInput
  {
  }

  lemma ReturnLeavesDrain(c: Control, a: Step)
    requires IsReturn(a)
    ensures ReturnStep(c, a).callback == c.callback && !InDrain(ReturnPc(a))
    ensures c.pc == ReturnPc(a) ==> ReturnStep(c, a).pc != AtInput
  {
  }

  lemma QueueInvKept(s: State, a: Step)
    requires QueueInv(s.c, s.t) && Enabled(s.c, a)
    ensures QueueInv(ControlStep(s, a), TrafficStep(s, a))
  {
    if a.DrainNext? || a.InputDone? {
      assert s.c.pc == DrainPc(a);
    } else {
      CallbackOrDrain(s, a);
    }
  }

  /** Once a packet has overtaken, the disorder shows as soon as the drain loop is left. */
  predicate DisorderShows(c: Control, t: Traffic) {
    t.overtaken && !InDrain(c.pc) ==> !Rising(t.offered)
  }

  lemma DisorderArrive(c: Control, t: Traffic, accepted: bool)
    requires QueueInv(c, t) && Fifo(t) && DisorderShows(c, t)
    ensures DisorderShows(c, ArriveStep(t, c.callback, accepted))
  {
    if !c.callback && !InDrain(c.pc) {
      assert Waiting(t) == [];
      RisingAppend(t.offered, t.arrived);
    }
  }

  lemma DisorderPop(c: Control, t: Traffic)
    requires QueueInv(c, t) && Overall(t) && c.pc == AtDrain
    ensures DisorderShows(DrainStep(c, DrainNext, t.queue == []), PopStep(t))
  {
    if t.queue == [] {
      assert t.offered + Waiting(t) == t.offered;
    }
  }

  lemma DisorderInput(c: Control, t: Traffic, taken: bool)
    ensures DisorderShows(DrainStep(c, InputDone(taken), t.queue == []), InputStep(t, taken))
  {
  }

  lemma DisorderKept(s: State, a: Step, c: Control, u: Traffic)
    requires QueueInv(s.c, s.t) && Fifo(s.t) && Overall(s.t) && DisorderShows(s.c, s.t) && Enabled(s.c, a)
    requires c == ControlStep(s, a) && u == TrafficStep(s, a)
    ensures DisorderShows(c, u)
  {
    if a.Arrive? {
      DisorderArrive(s.c, s.t, a.accepted);
    } else if a.DrainNext? {
      DisorderPop(s.c, s.t);
    } else if a.InputDone? {
      DisorderInput(s.c, s.t, a.taken);
    } else {
      DisorderElsewhere(s, a);
    }
  }

  lemma DisorderElsewhere(s: State, a: Step)
    requires DisorderShows(s.c, s.t) && Enabled(s.c, a) && !a.Arrive? && !a.DrainNext? && !a.InputDone?
    ensures DisorderShows(ControlStep(s, a), s.t)
  {
    if IsOther(a) {
      OtherLeavesPc(s.c, a);
    } else {
      DrainStatements(a);
    }
  }

  /** The drain loop has two statements. */
  lemma DrainStatements(a: Step)
    requires !IsOther(a) && !a.DrainNext? && !a.InputDone?
    ensures !InDrain(PcOf(a))
  {
  }

  // ---------------------------------------------------------------- all of it

  ghost predicate TrafficInv(s: State) {
    QueueInv(s.c, s.t) && Fifo(s.t) && Overall(s.t) && DisorderShows(s.c, s.t)
  }

  lemma TrafficInvKept(s: State, a: Step)
    requires TrafficInv(s) && Enabled(s.c, a)
    ensures TrafficInv(Apply(s, a).value)
  {
    QueueInvKept(s, a);
    FifoKept(s, a, TrafficStep(s, a));
    OverallKept(s, a);
    DisorderKept(s, a, ControlStep(s, a), TrafficStep(s, a));
  }
}
