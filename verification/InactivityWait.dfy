/** `cylpa_wait_net_inactivity` of `network_activity_handler.c`. Time is in milliseconds; the network
    activity that will happen is given as a sorted list of times from the start of the wait on. The
    clock that the code reads is a 32-bit counter. */
module InactivityWait {
  import opened Words

  datatype Status = Success | TimeoutExpired | BadArgs

  /** What the wait returns, and when. */
  datatype Outcome = Outcome(status: Status, at: nat)

  predicate Ordered(start: nat, acts: seq<nat>) {
    && (forall i | 0 <= i < |acts| :: start <= acts[i])
    && (forall i, j | 0 <= i < j < |acts| :: acts[i] <= acts[j])
  }

  /** `cy_rtos_get_time`. */
  function Clock(t: nat): u32 {
    t % U32_MOD
  }

  /** Difference of two clock readings in `uint32_t`. */
  function Elapsed(start: nat, now: nat): u32 {
    (Clock(now) - Clock(start)) % U32_MOD
  }

  lemma ElapsedIs(start: nat, now: nat)
    requires start <= now
    ensures Elapsed(start, now) == (now - start) % U32_MOD
    ensures now - start < U32_MOD ==> Elapsed(start, now) == now - start
  {
    var a, b := start / U32_MOD, now / U32_MOD;
    assert start == U32_MOD * a + Clock(start) && now == U32_MOD * b + Clock(now);
    assert now - start == U32_MOD * (b - a) + (Clock(now) - Clock(start));
  }

  /** The wait loop from the activity with index `k` on, at time `now`. */
  function Loop(start: nat, acts: seq<nat>, k: nat, now: nat, interval: u32, window: u32): Outcome
    requires k <= |acts|
    decreases |acts| - k
  {
    if k == |acts| || acts[k] - now >= window then Outcome(Success, now + window)
    else if Elapsed(start, acts[k]) >= interval then Outcome(TimeoutExpired, acts[k])
    else Loop(start, acts, k + 1, acts[k], interval, window)
  }

  lemma {:induction false} LoopStatus(start: nat, acts: seq<nat>, k: nat, now: nat, interval: u32, window: u32)
    requires k <= |acts|
    ensures Loop(start, acts, k, now, interval, window).status != BadArgs
    decreases |acts| - k
  {
    if k < |acts| {
      LoopStatus(start, acts, k + 1, acts[k], interval, window);
    }
  }

  /** `cy_rtos_waitbits_event` on the activity flags, clearing them: it returns at the next activity, or
      after `window` without one. */
  method WaitBits(acts: seq<nat>, k: nat, now: nat, window: u32) returns (timeout: bool, at: nat, next: nat)
    requires k <= |acts| && (k < |acts| ==> now <= acts[k])
    ensures timeout <==> k == |acts| || acts[k] - now >= window
    ensures timeout ==> at == now + window && next == k
    ensures !timeout ==> at == acts[k] && next == k + 1
  {
    if k == |acts| || acts[k] - now >= window {
      return true, now + window, k;
    }
    return false, acts[k], k + 1;
  }

  method WaitNetInactivity(interval: u32, window: u32, start: nat, acts: seq<nat>) returns (o: Outcome)
    requires Ordered(start, acts)
    ensures interval <= window ==> o == Outcome(BadArgs, start)
    ensures interval > window ==> o == Loop(start, acts, 0, start, interval, window)
  {
    if interval <= window {
      return Outcome(BadArgs, start);
    }
    var lpStart := Clock(start);
    var now, k := start, 0;
    while true
      invariant 0 <= k <= |acts| && start <= now && (k < |acts| ==> now <= acts[k])
      invariant Loop(start, acts, 0, start, interval, window) == Loop(start, acts, k, now, interval, window)
      decreases |acts| - k
    {
      var timeout, at, next := WaitBits(acts, k, now, window);
      now, k := at, next;
      if timeout {
        // a whole window without activity
        return Outcome(Success, now);
      }
      var lpEnd := Clock(now);
      var elapsed := (lpEnd - lpStart) % U32_MOD;
      if elapsed >= interval {
        // activity past the interval
        return Outcome(TimeoutExpired, now);
      }
    }
  }

  // ---------------------------------------------------------------- specification

  /** The moments a gap can begin: the call, and each activity. */
  function Point(start: nat, acts: seq<nat>, i: nat): nat
    requires i <= |acts|
  {
    if i == 0 then start else acts[i - 1]
  }

  /** No activity follows moment `i` for `window`. */
  predicate Quiet(start: nat, acts: seq<nat>, window: u32, i: nat)
    requires i <= |acts|
  {
    i == |acts| || acts[i] - Point(start, acts, i) >= window
  }

  /** The first moment from `k` on that begins a quiet gap. */
  function FirstQuiet(start: nat, acts: seq<nat>, window: u32, k: nat): (i: nat)
    requires k <= |acts|
    ensures k <= i <= |acts| && Quiet(start, acts, window, i)
    ensures forall j | k <= j < i :: !Quiet(start, acts, window, j)
    decreases |acts| - k
  {
    if Quiet(start, acts, window, k) then k else FirstQuiet(start, acts, window, k + 1)
  }

  /** The first moment from `k` on that is not strictly before start + interval, if there is one. */
  function FirstLate(start: nat, acts: seq<nat>, interval: u32, k: nat): (i: nat)
    requires k <= |acts|
    ensures k <= i <= |acts| + 1
    ensures i <= |acts| ==> Point(start, acts, i) >= start + interval
    ensures forall j | k <= j < i && j <= |acts| :: Point(start, acts, j) < start + interval
    decreases |acts| - k
  {
    if Point(start, acts, k) >= start + interval then k
    else if k == |acts| then k + 1
    else FirstLate(start, acts, interval, k + 1)
  }

  /** What the loop is for, as far as its clock does not wrap: succeed at the end of the first gap of `window`, if
      that gap begins strictly before start + interval; otherwise give up at the first moment after that. */
  function Spec(start: nat, acts: seq<nat>, interval: u32, window: u32): Outcome {
    var q := FirstQuiet(start, acts, window, 0);
    var l := FirstLate(start, acts, interval, 0);
    if Point(start, acts, q) < start + interval then Outcome(Success, Point(start, acts, q) + window)
    else Outcome(TimeoutExpired, Point(start, acts, l))
  }

  predicate MeetsSpec(start: nat, acts: seq<nat>, interval: u32, window: u32) {
    Loop(start, acts, 0, start, interval, window) == Spec(start, acts, interval, window)
  }

  lemma LateAfter(start: nat, acts: seq<nat>, interval: u32, i: nat, j: nat)
    requires Ordered(start, acts) && i <= j <= |acts|
    ensures Point(start, acts, i) <= Point(start, acts, j)
  {
  }

  lemma {:induction false} LoopIsSpec(start: nat, acts: seq<nat>, interval: u32, window: u32, k: nat)
    requires Ordered(start, acts) && interval > window && interval + window <= U32_MOD + 1
    requires k <= |acts| && Point(start, acts, k) < start + interval
    ensures var q := FirstQuiet(start, acts, window, k);
            var l := FirstLate(start, acts, interval, k);
            Loop(start, acts, k, Point(start, acts, k), interval, window)
            == if Point(start, acts, q) < start + interval then Outcome(Success, Point(start, acts, q) + window)
               else Outcome(TimeoutExpired, Point(start, acts, l))
    decreases |acts| - k
  {
    if !Quiet(start, acts, window, k) {
      ElapsedIs(start, acts[k]);
      var q := FirstQuiet(start, acts, window, k);
      if acts[k] >= start + interval {
        LateAfter(start, acts, interval, k + 1, q);
      } else {
        LoopIsSpec(start, acts, interval, window, k + 1);
      }
    }
  }

  lemma {:induction false} SkipToFirst(start: nat, acts: seq<nat>, interval: u32, window: u32)
    requires Ordered(start, acts) && interval > window && interval + window <= U32_MOD + 1
    ensures MeetsSpec(start, acts, interval, window)
  {
    LoopIsSpec(start, acts, interval, window, 0);
  }

  /** The same, unfolded: success exactly when a gap of `window` begins at the call or at an
      activity strictly before start + interval and every earlier gap is shorter, timeout otherwise, and a
      return before start + interval + window in every case. */
  lemma {:induction false} WaitIsInactivity(start: nat, acts: seq<nat>, interval: u32, window: u32)
    requires Ordered(start, acts) && interval > window && interval + window <= U32_MOD + 1
    ensures var o := Loop(start, acts, 0, start, interval, window);
            && (o.status == Success <==>
                  exists i | 0 <= i <= |acts| ::
                    && Quiet(start, acts, window, i) && Point(start, acts, i) < start + interval
                    && forall j | 0 <= j < i :: !Quiet(start, acts, window, j))
            && (o.status != Success ==> o.status == TimeoutExpired)
            && o.at < start + interval + window
  {
    var o := Loop(start, acts, 0, start, interval, window);
    LoopIsSpec(start, acts, interval, window, 0);
    var q := FirstQuiet(start, acts, window, 0);
    forall i | 0 <= i <= |acts| && Quiet(start, acts, window, i) && forall j | 0 <= j < i :: !Quiet(start, acts, window, j)
      ensures i == q
    {
    }
    if o.status != Success {
      LateNotQuiet(start, acts, interval, window, FirstLate(start, acts, interval, 0));
    }
  }

  lemma LateNotQuiet(start: nat, acts: seq<nat>, interval: u32, window: u32, l: nat)
    requires Ordered(start, acts) && interval > window
    requires l == FirstLate(start, acts, interval, 0)
    requires Point(start, acts, FirstQuiet(start, acts, window, 0)) >= start + interval
    ensures 1 <= l <= |acts| && Point(start, acts, l) < start + interval + window
  {
    var q := FirstQuiet(start, acts, window, 0);
    assert l <= q;
    assert !Quiet(start, acts, window, l - 1);
  }

  // ---------------------------------------------------------------- when the clock difference wraps

  /** Activity every millisecond until just before the interval is over, and one more just inside the
      window after that. */
  function Busy(interval: u32, window: u32): (acts: seq<nat>)
    requires 2 <= window < interval
    ensures |acts| == interval
  {
    seq(interval, i requires 0 <= i < interval => if i < interval - 1 then i + 1 else interval + window - 2)
  }

  lemma BusyOrdered(interval: u32, window: u32)
    requires 2 <= window < interval
    ensures Ordered(0, Busy(interval, window))
  {
  }

  lemma {:induction false} BusyLoop(interval: u32, window: u32, k: nat)
    requires 2 <= window < interval && k <= interval - 1
    ensures Loop(0, Busy(interval, window), 0, 0, interval, window)
         == Loop(0, Busy(interval, window), k, k, interval, window)
  {
    if k > 0 {
      BusyLoop(interval, window, k - 1);
      ElapsedIs(0, k);
    }
  }

  lemma {:induction false} BusyNeverQuiet(interval: u32, window: u32, k: nat)
    requires 2 <= window < interval && k <= interval
    ensures FirstQuiet(0, Busy(interval, window), window, k) == interval
  {
    var acts := Busy(interval, window);
    forall q | 0 <= q < interval
      ensures !Quiet(0, acts, window, q)
    {
    }
  }

  lemma {:induction false} BusyMissed(interval: u32, window: u32)
    requires window < interval && interval + window > U32_MOD + 1
    ensures Ordered(0, Busy(interval, window)) && !MeetsSpec(0, Busy(interval, window), interval, window)
  {
    var acts := Busy(interval, window);
    BusyOrdered(interval, window);
    BusyLoop(interval, window, interval - 1);
    ElapsedIs(0, interval + window - 2);
    assert (interval + window - 2) % U32_MOD == interval + window - 2 - U32_MOD;
    assert Loop(0, acts, interval - 1, interval - 1, interval, window).status == Success;
    BusyNeverQuiet(interval, window, 0);
    assert Point(0, acts, interval) == interval + window - 2;
    var l := FirstLate(0, acts, interval, 0);
    assert l <= |acts|;
  }

  /** The wait meets this specification on every activity pattern exactly when the two arguments are small
      enough together for the 32-bit clock difference not to wrap before it is compared. */
  lemma {:induction false} MeetsSpecIffNoWrap(interval: u32, window: u32)
    requires interval > window
    ensures (forall start: nat, acts: seq<nat> | Ordered(start, acts) :: MeetsSpec(start, acts, interval, window))
            <==> interval + window <= U32_MOD + 1
  {
    if interval + window <= U32_MOD + 1 {
      forall start: nat, acts: seq<nat> | Ordered(start, acts)
        ensures MeetsSpec(start, acts, interval, window)
      {
        SkipToFirst(start, acts, interval, window);
      }
    } else {
      BusyMissed(interval, window);
    }
  }

  // ---------------------------------------------------------------- what the header promises

  /** The network is inactive for a whole window inside the interval. */
  predicate InactiveInside(start: nat, acts: seq<nat>, interval: u32, window: u32) {
    exists i | 0 <= i <= |acts| :: Quiet(start, acts, window, i) && Point(start, acts, i) + window <= start + interval
  }

  /** The documented promise: success exactly when the network is inactive for a whole window inside the interval. */
  predicate KeepsPromise(start: nat, acts: seq<nat>, interval: u32, window: u32) {
    Loop(start, acts, 0, start, interval, window).status == Success <==> InactiveInside(start, acts, interval, window)
  }

  /** The first quiet gap begins inside the interval and ends past it. */
  predicate Straddles(start: nat, acts: seq<nat>, interval: u32, window: u32) {
    var p := Point(start, acts, FirstQuiet(start, acts, window, 0));
    p < start + interval < p + window
  }

  /** A window fits the interval exactly when the first one does. */
  lemma {:induction false} InsideIsFirst(start: nat, acts: seq<nat>, interval: u32, window: u32)
    requires Ordered(start, acts)
    ensures InactiveInside(start, acts, interval, window)
            <==> Point(start, acts, FirstQuiet(start, acts, window, 0)) + window <= start + interval
  {
    var q := FirstQuiet(start, acts, window, 0);
    if InactiveInside(start, acts, interval, window) {
      var i :| 0 <= i <= |acts| && Quiet(start, acts, window, i) && Point(start, acts, i) + window <= start + interval;
      LateAfter(start, acts, interval, q, i);
    }
  }

  /** The code declares the network inactive too early by the header's measure exactly when the first quiet gap
      straddles the end of the interval: it tests only that the gap begins in time. */
  lemma {:induction false} PromiseKeptIff(start: nat, acts: seq<nat>, interval: u32, window: u32)
    requires Ordered(start, acts) && interval > window && interval + window <= U32_MOD + 1
    ensures KeepsPromise(start, acts, interval, window) <==> !Straddles(start, acts, interval, window)
  {
    LoopIsSpec(start, acts, interval, window, 0);
    InsideIsFirst(start, acts, interval, window);
  }

  /** Activity every millisecond until just before the interval is over. */
  function UntilEnd(interval: u32): (acts: seq<nat>)
    requires interval > 0
    ensures |acts| == interval - 1
  {
    seq(interval - 1, i requires 0 <= i < interval - 1 => i + 1)
  }

  lemma UntilEndOrdered(interval: u32)
    requires interval > 0
    ensures Ordered(0, UntilEnd(interval))
  {
  }

  lemma {:induction false} UntilEndLoop(interval: u32, window: u32, k: nat)
    requires 2 <= window < interval && k <= interval - 1
    ensures Loop(0, UntilEnd(interval), 0, 0, interval, window) == Loop(0, UntilEnd(interval), k, k, interval, window)
  {
    if k > 0 {
      UntilEndLoop(interval, window, k - 1);
      ElapsedIs(0, k);
    }
  }

  lemma {:induction false} UntilEndQuiet(interval: u32, window: u32, i: nat)
    requires 2 <= window < interval && i <= interval - 1
    ensures Quiet(0, UntilEnd(interval), window, i) ==> i == interval - 1
    ensures Point(0, UntilEnd(interval), i) == i
  {
  }

  /** For every window of at least two milliseconds this pattern breaks the promise: no window is inside the
      interval, and the wait succeeds. */
  lemma {:induction false} PromiseBroken(interval: u32, window: u32)
    requires 2 <= window < interval
    ensures Ordered(0, UntilEnd(interval)) && !KeepsPromise(0, UntilEnd(interval), interval, window)
  {
    var acts := UntilEnd(interval);
    UntilEndOrdered(interval);
    UntilEndLoop(interval, window, interval - 1);
    if InactiveInside(0, acts, interval, window) {
      var i :| 0 <= i <= |acts| && Quiet(0, acts, window, i) && Point(0, acts, i) + window <= interval;
      UntilEndQuiet(interval, window, i);
      assert false;
    }
  }

  lemma {:induction false} ShortWindowKept(start: nat, acts: seq<nat>, interval: u32, window: u32)
    requires Ordered(start, acts) && interval > window && window <= 1
    ensures KeepsPromise(start, acts, interval, window)
  {
    PromiseKeptIff(start, acts, interval, window);
  }

  /** The header's promise holds on every activity pattern exactly for windows of at most one millisecond. */
  lemma {:induction false} PromiseIffShortWindow(interval: u32, window: u32)
    requires interval > window
    ensures (forall start: nat, acts: seq<nat> | Ordered(start, acts) :: KeepsPromise(start, acts, interval, window))
            <==> window <= 1
  {
    if window <= 1 {
      forall start: nat, acts: seq<nat> | Ordered(start, acts)
        ensures KeepsPromise(start, acts, interval, window)
      {
        ShortWindowKept(start, acts, interval, window);
      }
    } else {
      PromiseBroken(interval, window);
    }
  }
}
