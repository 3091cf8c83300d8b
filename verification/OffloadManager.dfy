/** The offload manager of `cy_lpa_wifi_olm.c`: start-up with rollback, power-state dispatch, and saving and
    restoring the radio's pm2_sleep_ret register. An offload's functions are known by the calls made to
    them; what they return is given. */
module OffloadManager {
  import opened Wrappers
  import opened Words

  const RESULT_OK: int := 0
  const RESULT_BADARGS: int := -3
  const LPA_PM2_SLEEP_RET_TIME: u32 := 10

  datatype PmState = GoingToSleep | Awake

  /** Which functions an offload descriptor provides. */
  datatype Desc = Desc(hasInit: bool, hasDeinit: bool, hasPm: bool)

  /** A call to the offload at a position of the list, or the one-off WLAN configuration. */
  datatype Event = InitCall(at: nat) | DeinitCall(at: nat) | PmCall(at: nat, st: PmState) | WlanConfig

  // ---------------------------------------------------------------- specification

  /** The first position whose init function fails, or the length of the list. */
  function FirstFailure(list: seq<Desc>, results: seq<int>): (k: nat)
    requires |results| == |list|
    ensures k <= |list|
    ensures forall i | 0 <= i < k :: list[i].hasInit ==> results[i] == RESULT_OK
    ensures k < |list| ==> list[k].hasInit && results[k] != RESULT_OK
  {
    if list == [] then 0
    else if list[0].hasInit && results[0] != RESULT_OK then 0
    else 1 + FirstFailure(list[1..], results[1..])
  }

  lemma {:induction false} FirstFailureIs(list: seq<Desc>, results: seq<int>, k: nat)
    requires |results| == |list| && k <= |list|
    requires forall i | 0 <= i < k :: list[i].hasInit ==> results[i] == RESULT_OK
    requires k < |list| ==> list[k].hasInit && results[k] != RESULT_OK
    ensures FirstFailure(list, results) == k
  {
    if k > 0 {
      assert !(list[0].hasInit && results[0] != RESULT_OK);
      FirstFailureIs(list[1..], results[1..], k - 1);
    }
  }

  /** Init calls to the first `n` offloads, in list order. */
  function Inits(list: seq<Desc>, n: nat): seq<Event>
    requires n <= |list|
  {
    if n == 0 then [] else Inits(list, n - 1) + if list[n - 1].hasInit then [InitCall(n - 1)] else []
  }

  function Deinits(list: seq<Desc>, n: nat): seq<Event>
    requires n <= |list|
  {
    if n == 0 then [] else Deinits(list, n - 1) + if list[n - 1].hasDeinit then [DeinitCall(n - 1)] else []
  }

  function Pms(list: seq<Desc>, n: nat, st: PmState): seq<Event>
    requires n <= |list|
  {
    if n == 0 then [] else Pms(list, n - 1, st) + if list[n - 1].hasPm then [PmCall(n - 1, st)] else []
  }

  /** The calls of a start-up: inits up to the first failure; after a failure, deinits of what precedes it. */
  function StartUp(list: seq<Desc>, results: seq<int>): seq<Event>
    requires |results| == |list|
  {
    var k := FirstFailure(list, results);
    if k == |list| then Inits(list, k) else Inits(list, k + 1) + Deinits(list, k)
  }

  // ---------------------------------------------------------------- the manager

  class Olm {
    /** `ol_list`, `ol_info.whd` and the globals of the file. */
    var olList: Option<seq<Desc>>
    var whd: bool
    var instanceCreated: bool
    var savedPm2: u32
    /** The radio's register, and every call made so far. */
    var pm2: u32
    var calls: seq<Event>

    constructor (olList: Option<seq<Desc>>, pm2: u32)
      ensures this.olList == olList && !whd && !instanceCreated && savedPm2 == 0 && this.pm2 == pm2 && calls == []
    {
      this.olList, whd, instanceCreated, savedPm2, this.pm2, calls := olList, false, false, 0, pm2, [];
    }

    /** `cylpa_olm_init_ols`; `results[i]` is what the init function at position `i` returns if called. */
    method InitOls(whd: bool, results: seq<int>) returns (result: int)
      requires olList.Some? ==> |results| == |olList.value|
      modifies this`whd, this`instanceCreated, this`calls
      ensures this.whd == whd
      ensures olList.None? ==> result == RESULT_BADARGS && calls == old(calls) && instanceCreated == old(instanceCreated)
      ensures olList.Some? ==>
                var k := FirstFailure(olList.value, results);
                && result == (if k == |olList.value| then RESULT_OK else results[k])
                && instanceCreated == (old(instanceCreated) || whd)
                && calls == old(calls) + (if whd && !old(instanceCreated) then [WlanConfig] else [])
                            + StartUp(olList.value, results)
    {
      result := RESULT_OK;
      this.whd := whd;
      if olList.None? {
        return RESULT_BADARGS;
      }
      if whd && !instanceCreated {
        calls := calls + [WlanConfig];
        instanceCreated := true;
      }
      var list := olList.value;
      var it0;
      it0, result := RunInits(list, results);
      FirstFailureIs(list, results, it0);
      if result != RESULT_OK {
        // roll back to the state before the call
        UndoInits(list, it0);
      }
    }

    /** The first half of `cylpa_olm_init_ols`: start one offload after the other until one fails. */
    method RunInits(list: seq<Desc>, results: seq<int>) returns (it0: nat, result: int)
      requires |results| == |list|
      modifies this`calls
      ensures it0 <= |list| && forall i | 0 <= i < it0 :: list[i].hasInit ==> results[i] == RESULT_OK
      ensures if it0 == |list| then result == RESULT_OK && calls == old(calls) + Inits(list, it0)
              else list[it0].hasInit && result == results[it0] != RESULT_OK && calls == old(calls) + Inits(list, it0 + 1)
    {
      it0, result := 0, RESULT_OK;
      while it0 < |list|
        invariant it0 <= |list| && result == RESULT_OK
        invariant forall i | 0 <= i < it0 :: list[i].hasInit ==> results[i] == RESULT_OK
        invariant calls == old(calls) + Inits(list, it0)
      {
        if list[it0].hasInit {
          result := results[it0];
          calls := calls + [InitCall(it0)];
          if result != RESULT_OK {
            return;
          }
        }
        it0 := it0 + 1;
      }
    }

    /** The second half of `cylpa_olm_init_ols`: stop what precedes the failing position. */
    method UndoInits(list: seq<Desc>, it0: nat)
      requires it0 <= |list|
      modifies this`calls
      ensures calls == old(calls) + Deinits(list, it0)
    {
      var it1 := 0;
      while it1 != it0
        invariant 0 <= it1 <= it0
        invariant calls == old(calls) + Deinits(list, it1)
        decreases it0 - it1
      {
        if list[it1].hasDeinit {
          calls := calls + [DeinitCall(it1)];
        }
        it1 := it1 + 1;
      }
    }

    /** `cylpa_olm_deinit_ols`. */
    method DeinitOls()
      modifies this`calls
      ensures calls == old(calls) + if olList.Some? then Deinits(olList.value, |olList.value|) else []
    {
      if olList.None? {
        return;
      }
      var list := olList.value;
      for it := 0 to |list|
        invariant calls == old(calls) + Deinits(list, it)
      {
        if list[it].hasDeinit {
          calls := calls + [DeinitCall(it)];
        }
      }
    }

    /** `cylpa_olm_configure_wlan_pmode`. */
    method ConfigureWlanPmode(value: u32, minPower: bool)
      modifies this`pm2, this`savedPm2
      ensures !whd ==> pm2 == old(pm2) && savedPm2 == old(savedPm2)
      ensures whd ==> pm2 == value && savedPm2 == if minPower then old(pm2) else old(savedPm2)
    {
      if whd {
        if minPower {
          savedPm2 := pm2;
          pm2 := value;
        } else {
          pm2 := value;
        }
      }
    }

    /** `cylpa_olm_dispatch_pm_notification`. */
    method DispatchPmNotification(st: PmState)
      modifies this`pm2, this`savedPm2, this`calls
      ensures olList.None? || !whd ==> Register(pm2, savedPm2) == old(Register(pm2, savedPm2)) && calls == old(calls)
      ensures olList.Some? && whd ==>
                && Register(pm2, savedPm2) == Step(old(Register(pm2, savedPm2)), Dispatch(st))
                && calls == old(calls) + Pms(olList.value, |olList.value|, st)
    {
      if olList.None? || !whd {
        return;
      }
      if st == GoingToSleep {
        ConfigureWlanPmode(LPA_PM2_SLEEP_RET_TIME, true);
      } else {
        ConfigureWlanPmode(savedPm2, false);
      }
      var list := olList.value;
      ghost var register := Register(pm2, savedPm2);
      for it := 0 to |list|
        invariant Register(pm2, savedPm2) == register
        invariant calls == old(calls) + Pms(list, it, st)
      {
        if list[it].hasPm {
          calls := calls + [PmCall(it, st)];
        }
      }
    }
  }

  // ---------------------------------------------------------------- all or rollback

  /** Whether offload `i` is up after a series of calls: successfully started and not stopped since. */
  predicate IsUp(calls: seq<Event>, results: seq<int>, i: nat)
    requires i < |results|
  {
    if calls == [] then false
    else
      var before := IsUp(calls[..|calls| - 1], results, i);
      match calls[|calls| - 1]
      case InitCall(j) => before || (j == i && results[i] == RESULT_OK)
      case DeinitCall(j) => before && j != i
      case _ => before
  }

  lemma {:induction false} UpAfterInits(list: seq<Desc>, results: seq<int>, n: nat, i: nat)
    requires |results| == |list| && n <= |list| && i < |list|
    ensures IsUp(Inits(list, n), results, i) <==> i < n && list[i].hasInit && results[i] == RESULT_OK
  {
    if n > 0 {
      UpAfterInits(list, results, n - 1, i);
      var was := Inits(list, n - 1);
      if list[n - 1].hasInit {
        assert (was + [InitCall(n - 1)])[..|was|] == was;
      } else {
        assert was + [] == was;
      }
    }
  }

  lemma {:induction false} UpAfterDeinits(list: seq<Desc>, results: seq<int>, a: seq<Event>, n: nat, i: nat)
    requires |results| == |list| && n <= |list| && i < |list|
    ensures IsUp(a + Deinits(list, n), results, i) <==> IsUp(a, results, i) && !(i < n && list[i].hasDeinit)
  {
    if n == 0 {
      assert a + Deinits(list, 0) == a;
    } else {
      UpAfterDeinits(list, results, a, n - 1, i);
      var was := a + Deinits(list, n - 1);
      if list[n - 1].hasDeinit {
        assert a + Deinits(list, n) == was + [DeinitCall(n - 1)];
        assert (was + [DeinitCall(n - 1)])[..|was|] == was;
      } else {
        assert a + Deinits(list, n) == was;
      }
    }
  }

  /** Start-up is all or nothing: either no init fails and every offload with an init function is up, or
      afterwards only earlier offloads that cannot be stopped are. */
  lemma {:induction false} AllOrRollback(list: seq<Desc>, results: seq<int>, i: nat)
    requires |results| == |list| && i < |list|
    ensures var k := FirstFailure(list, results);
            IsUp(StartUp(list, results), results, i)
            <==> list[i].hasInit && (k == |list| || (i < k && !list[i].hasDeinit))
  {
    var k := FirstFailure(list, results);
    if k == |list| {
      UpAfterInits(list, results, k, i);
    } else {
      UpAfterInits(list, results, k + 1, i);
      UpAfterDeinits(list, results, Inits(list, k + 1), k, i);
    }
  }

  /** How often a call occurs. */
  function Count(calls: seq<Event>, e: Event): nat {
    if calls == [] then 0 else Count(calls[..|calls| - 1], e) + if calls[|calls| - 1] == e then 1 else 0
  }

  lemma {:induction false} CountConcat(a: seq<Event>, b: seq<Event>, e: Event)
    ensures Count(a + b, e) == Count(a, e) + Count(b, e)
  {
    if b == [] {
      assert a + b == a;
    } else {
      CountConcat(a, b[..|b| - 1], e);
      assert (a + b)[..|a + b| - 1] == a + b[..|b| - 1];
    }
  }

  lemma CountOne(c: Event, e: Event)
    ensures Count([c], e) == if c == e then 1 else 0
  {
    assert [c][..0] == [];
    assert Count([], e) == 0;
  }

  lemma {:induction false} InitCounts(list: seq<Desc>, n: nat, i: nat)
    requires n <= |list|
    ensures Count(Inits(list, n), InitCall(i)) == if i < n && list[i].hasInit then 1 else 0
    ensures Count(Inits(list, n), DeinitCall(i)) == 0
  {
    if n > 0 {
      InitCounts(list, n - 1, i);
      if list[n - 1].hasInit {
        CountConcat(Inits(list, n - 1), [InitCall(n - 1)], InitCall(i));
        CountConcat(Inits(list, n - 1), [InitCall(n - 1)], DeinitCall(i));
        CountOne(InitCall(n - 1), InitCall(i));
        CountOne(InitCall(n - 1), DeinitCall(i));
      } else {
        assert Inits(list, n) == Inits(list, n - 1);
      }
    }
  }

  lemma {:induction false} DeinitCounts(list: seq<Desc>, n: nat, i: nat)
    requires n <= |list|
    ensures Count(Deinits(list, n), DeinitCall(i)) == if i < n && list[i].hasDeinit then 1 else 0
    ensures Count(Deinits(list, n), InitCall(i)) == 0
  {
    if n > 0 {
      DeinitCounts(list, n - 1, i);
      if list[n - 1].hasDeinit {
        CountConcat(Deinits(list, n - 1), [DeinitCall(n - 1)], InitCall(i));
        CountConcat(Deinits(list, n - 1), [DeinitCall(n - 1)], DeinitCall(i));
        CountOne(DeinitCall(n - 1), InitCall(i));
        CountOne(DeinitCall(n - 1), DeinitCall(i));
      } else {
        assert Deinits(list, n) == Deinits(list, n - 1);
      }
    }
  }

  /** Each call of a start-up is made once, and only those: no deinit without a failure, none for the failing
      entry or anything after it. */
  lemma {:induction false} StartUpCounts(list: seq<Desc>, results: seq<int>, calls: seq<Event>, i: nat)
    requires |results| == |list| && calls == StartUp(list, results)
    ensures var k := FirstFailure(list, results);
            && Count(calls, InitCall(i)) == (if i < |list| && i <= k && list[i].hasInit then 1 else 0)
            && Count(calls, DeinitCall(i)) == (if k < |list| && i < k && list[i].hasDeinit then 1 else 0)
  {
    var k := FirstFailure(list, results);
    if k == |list| {
      InitCounts(list, k, i);
    } else {
      RollbackCounts(list, k, i);
    }
  }

  lemma RollbackCounts(list: seq<Desc>, k: nat, i: nat)
    requires k < |list|
    ensures var calls := Inits(list, k + 1) + Deinits(list, k);
            && Count(calls, InitCall(i)) == (if i <= k && list[i].hasInit then 1 else 0)
            && Count(calls, DeinitCall(i)) == (if i < k && list[i].hasDeinit then 1 else 0)
  {
    InitCounts(list, k + 1, i);
    DeinitCounts(list, k, i);
    CountConcat(Inits(list, k + 1), Deinits(list, k), InitCall(i));
    CountConcat(Inits(list, k + 1), Deinits(list, k), DeinitCall(i));
  }

  predicate AscendingInits(q: seq<Event>) {
    && (forall i | 0 <= i < |q| :: q[i].InitCall?)
    && (forall i, j | 0 <= i < j < |q| :: q[i].at < q[j].at)
  }

  predicate AscendingDeinits(q: seq<Event>) {
    && (forall i | 0 <= i < |q| :: q[i].DeinitCall?)
    && (forall i, j | 0 <= i < j < |q| :: q[i].at < q[j].at)
  }

  lemma {:induction false} InitsInOrder(list: seq<Desc>, n: nat)
    requires n <= |list|
    ensures AscendingInits(Inits(list, n)) && forall i | 0 <= i < |Inits(list, n)| :: Inits(list, n)[i].at < n
  {
    if n > 0 {
      InitsInOrder(list, n - 1);
    }
  }

  lemma {:induction false} DeinitsInOrder(list: seq<Desc>, n: nat)
    requires n <= |list|
    ensures AscendingDeinits(Deinits(list, n)) && forall i | 0 <= i < |Deinits(list, n)| :: Deinits(list, n)[i].at < n
  {
    if n > 0 {
      DeinitsInOrder(list, n - 1);
    }
  }

  /** `a` may come before `b` in a start-up: inits in list order, then deinits in list order. */
  predicate MayPrecede(a: Event, b: Event) {
    match a
    case InitCall(i) => b.DeinitCall? || (b.InitCall? && i < b.at)
    case DeinitCall(i) => b.DeinitCall? && i < b.at
    case _ => false
  }

  lemma {:induction false} PhasesInOrder(inits: seq<Event>, deinits: seq<Event>, i: nat, j: nat)
    requires AscendingInits(inits) && AscendingDeinits(deinits) && i < j < |inits + deinits|
    ensures MayPrecede((inits + deinits)[i], (inits + deinits)[j])
  {
  }

  /** A start-up is a series of inits in list order and, after a failure, a series of deinits in list order. */
  lemma {:induction false} StartUpInOrder(list: seq<Desc>, results: seq<int>, calls: seq<Event>, i: nat, j: nat)
    requires |results| == |list| && calls == StartUp(list, results) && i < j < |calls|
    ensures MayPrecede(calls[i], calls[j])
  {
    var k := FirstFailure(list, results);
    if k == |list| {
      InitsInOrder(list, k);
      assert calls == Inits(list, k) + [];
      PhasesInOrder(Inits(list, k), [], i, j);
    } else {
      InitsInOrder(list, k + 1);
      DeinitsInOrder(list, k);
      PhasesInOrder(Inits(list, k + 1), Deinits(list, k), i, j);
    }
  }

  /** A dispatch notifies every offload with a handler once, in list order, and nobody else. */
  lemma {:induction false} DispatchOnceInOrder(list: seq<Desc>, n: nat, st: PmState)
    requires n <= |list|
    ensures forall i | 0 <= i < |Pms(list, n, st)| ::
              var e := Pms(list, n, st)[i]; e.PmCall? && e.st == st && e.at < n && list[e.at].hasPm
    ensures forall i, j | 0 <= i < j < |Pms(list, n, st)| ::
              Pms(list, n, st)[i].PmCall? && Pms(list, n, st)[j].PmCall? && Pms(list, n, st)[i].at < Pms(list, n, st)[j].at
    ensures forall p | 0 <= p < n && list[p].hasPm :: PmCall(p, st) in Pms(list, n, st)
  {
    if n > 0 {
      DispatchOnceInOrder(list, n - 1, st);
    }
  }

  // ---------------------------------------------------------------- the radio register

  /** pm2_sleep_ret and the value kept for it. */
  datatype Register = Register(pm2: u32, saved: u32)

  /** A dispatch, or the application setting the register. */
  datatype Change = Dispatch(st: PmState) | Application(value: u32)

  function Step(r: Register, c: Change): Register {
    match c
    case Dispatch(GoingToSleep) => Register(LPA_PM2_SLEEP_RET_TIME, r.pm2)
    case Dispatch(Awake) => Register(r.saved, r.saved)
    case Application(v) => r.(pm2 := v)
  }

  function Changes(r: Register, cs: seq<Change>): Register {
    if cs == [] then r else Step(Changes(r, cs[..|cs| - 1]), cs[|cs| - 1])
  }

  lemma {:induction false} ChangesAppend(r: Register, a: seq<Change>, b: seq<Change>)
    ensures Changes(r, a + b) == Changes(Changes(r, a), b)
  {
    if b == [] {
      assert a + b == a;
    } else {
      ChangesAppend(r, a, b[..|b| - 1]);
      assert (a + b)[..|a + b| - 1] == a + b[..|b| - 1];
    }
  }

  lemma {:induction false} SavedKept(r: Register, cs: seq<Change>)
    requires Dispatch(GoingToSleep) !in cs
    ensures Changes(r, cs).saved == r.saved
  {
    if cs != [] {
      assert cs[|cs| - 1] in cs;
      SavedKept(r, cs[..|cs| - 1]);
    }
  }

  /** The register is restored: whatever happened before, and whatever the application sets in between, the
      value after an awake dispatch is the value just before the last sleep dispatch. */
  lemma {:induction false} RegisterRestored(r: Register, before: seq<Change>, between: seq<Change>)
    requires Dispatch(GoingToSleep) !in between
    ensures Changes(r, before + [Dispatch(GoingToSleep)] + between + [Dispatch(Awake)]).pm2 == Changes(r, before).pm2
  {
    var asleep := before + [Dispatch(GoingToSleep)];
    ChangesAppend(r, before, [Dispatch(GoingToSleep)]);
    ChangesAppend(r, asleep, between);
    ChangesAppend(r, asleep + between, [Dispatch(Awake)]);
    SavedKept(Changes(r, asleep), between);
    One(Changes(r, before), Dispatch(GoingToSleep));
    One(Changes(r, asleep + between), Dispatch(Awake));
  }

  lemma One(r: Register, c: Change)
    ensures Changes(r, [c]) == Step(r, c)
  {
    assert [c][..0] == [];
    assert Changes(r, []) == r;
  }

  /** What the application has set since the host went to sleep: the last value it set, or the sleep value. */
  function SetWhileAsleep(cs: seq<Change>): u32 {
    if cs == [] then LPA_PM2_SLEEP_RET_TIME
    else
      match cs[|cs| - 1]
      case Application(v) => v
      case Dispatch(_) => LPA_PM2_SLEEP_RET_TIME
  }

  /** Whether the register, after a sleep dispatch and `cs`, still is what `cs` says. */
  lemma {:induction false} RegisterWhileAsleep(r: Register, cs: seq<Change>)
    requires r.pm2 == LPA_PM2_SLEEP_RET_TIME && Dispatch(Awake) !in cs
    ensures Changes(r, cs).pm2 == SetWhileAsleep(cs)
  {
    if cs != [] {
      assert cs[|cs| - 1] in cs;
      RegisterWhileAsleep(r, cs[..|cs| - 1]);
    }
  }

  /** Sleep dispatches without an awake one in between lose the application's value: whatever else happens before,
      between and after them, the awake dispatch restores what was set while asleep, so the value from before the
      first sleep dispatch comes back exactly when the two are equal. */
  lemma {:induction false} DoubleSleepLoses(r: Register, before: seq<Change>, mid: seq<Change>, between: seq<Change>)
    requires Dispatch(Awake) !in mid && Dispatch(GoingToSleep) !in between
    ensures var asleep := before + [Dispatch(GoingToSleep)] + mid;
            Changes(r, asleep + [Dispatch(GoingToSleep)] + between + [Dispatch(Awake)]).pm2 == SetWhileAsleep(mid)
  {
    var first := before + [Dispatch(GoingToSleep)];
    RegisterRestored(r, first + mid, between);
    ChangesAppend(r, before, [Dispatch(GoingToSleep)]);
    One(Changes(r, before), Dispatch(GoingToSleep));
    ChangesAppend(r, first, mid);
    RegisterWhileAsleep(Changes(r, first), mid);
  }

  /** An awake dispatch that no sleep dispatch preceded writes the value the global starts with. */
  lemma {:induction false} AwakeFirstWritesInitial(r: Register, cs: seq<Change>)
    requires Dispatch(GoingToSleep) !in cs
    ensures Changes(r, cs + [Dispatch(Awake)]).pm2 == r.saved
  {
    ChangesAppend(r, cs, [Dispatch(Awake)]);
    SavedKept(r, cs);
    One(Changes(r, cs), Dispatch(Awake));
  }
}
