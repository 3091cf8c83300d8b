/** The ARP offload of `cy_lpa_wifi_arp_ol.c`: the address tracker run by the worker thread, and the feature mask
    set on a power-state change. Driver calls succeed, and without a radio interface they reach no device. */
module ArpTracker {
  import opened Wrappers
  import opened Words

  const NULL_IP_ADDRESS: u32 := 0
  const DHCP_RETRY_COUNT: int := 25
  const RESULT_OK: int := 0
  const RESULT_BADARGS: int := -3

  const AGENT_ENABLE: bv32 := 1
  const HOST_AUTO_REPLY_ENABLE: bv32 := 4
  const PEER_AUTO_REPLY_ENABLE: bv32 := 8

  datatype PmState = GoingToSleep | Awake

  datatype ConfigState = Uninitialized | Configured(st: PmState)

  /** `newInfra`: the firmware has the offload built in; then there is no worker thread either. `iface`: the manager
      knows the radio interface. */
  datatype Config = Config(awakeMask: bv32, sleepMask: bv32, newInfra: bool, iface: bool)

  /** The offload is this code's business, and it has a device to talk to. */
  predicate Drives(c: Config) {
    !c.newInfra && c.iface
  }

  /** What `whd_wifi_is_ready_to_transceive` answers. */
  datatype Link = Success | InvalidJoinStatus | JoinInProgress | OtherError

  /** The offload and the device it drives. `attached`: the offload knows its manager. `retry` is the C `int`
      without its lower bound. `timerStarts` counts the worker's restarts of the DHCP timer. */
  datatype Arp = Arp(attached: bool, ip: u32, state: ConfigState, retry: int,
                     hostIps: set<u32>, features: bv32, enabled: bool, timerStarts: nat)

  /** `Start`: `cylpa_arp_ol_init`, with or without its pointers. `Work`: the timer has fired and the worker, if there
      is one, runs, given the address the IP stack reports, if any, and the state of the link. */
  datatype Event = Start(pointers: bool) | Stop | Notify(st: PmState) | Work(addr: Option<u32>, link: Link)

  // ---------------------------------------------------------------- the code as steps

  predicate Acquires(e: Event) {
    e.Work? && e.addr.Some? && e.addr.value != NULL_IP_ADDRESS
  }

  /** A run of the worker that finds a link but no address. */
  predicate Misses(e: Event) {
    e.Work? && !Acquires(e) && !e.link.OtherError?
  }

  function MaskFor(c: Config, st: PmState): bv32 {
    match st case Awake => c.awakeMask case GoingToSleep => c.sleepMask
  }

  /** A mask with an auto-reply bit needs the agent. */
  function WithAgent(mask: bv32): bv32 {
    if mask & (HOST_AUTO_REPLY_ENABLE | PEER_AUTO_REPLY_ENABLE) != 0 then mask | AGENT_ENABLE else mask
  }

  function AfterPm(c: Config, a: Arp, st: PmState): Arp {
    if !Drives(c) || a.state == Configured(st) then a
    else if a.state == Uninitialized || c.awakeMask != c.sleepMask then
      a.(state := Configured(st), features := WithAgent(MaskFor(c, st)), enabled := true)
    else
      a.(state := Configured(st), features := 0, enabled := false)
  }

  /** The device's host addresses after removing or adding one. */
  function Cleared(c: Config, a: Arp, ip: u32): set<u32> {
    if c.iface then a.hostIps - {ip} else a.hostIps
  }

  function Added(c: Config, hostIps: set<u32>, ip: u32): set<u32> {
    if c.iface then hostIps + {ip} else hostIps
  }

  function AfterWork(c: Config, a: Arp, e: Event): Arp
    requires e.Work?
  {
    if !a.attached then a
    else if Acquires(e) then
      a.(ip := e.addr.value, retry := DHCP_RETRY_COUNT,
         hostIps := Added(c, if e.addr.value != a.ip then Cleared(c, a, a.ip) else a.hostIps, e.addr.value))
    else
      var cleared := if a.ip != NULL_IP_ADDRESS then a.(hostIps := Cleared(c, a, a.ip), ip := NULL_IP_ADDRESS) else a;
      if Misses(e) then
        cleared.(retry := a.retry - 1, timerStarts := a.timerStarts + if a.retry - 1 > 0 then 1 else 0)
      else cleared
  }

  function AfterStart(c: Config, a: Arp): Arp {
    var known := a.(attached := true, ip := NULL_IP_ADDRESS, state := Uninitialized);
    if !Drives(c) then known else AfterPm(c, known.(hostIps := {}, features := 0, enabled := false), Awake)
  }

  function Step(c: Config, a: Arp, e: Event): Arp {
    match e
    case Start(pointers) => if pointers then AfterStart(c, a) else a
    case Stop =>
      if a.attached && !c.newInfra then a.(state := Uninitialized, enabled := if c.iface then false else a.enabled) else a
    case Notify(st) => if a.attached then AfterPm(c, a, st) else a
    case Work(_, _) => if c.newInfra then a else AfterWork(c, a, e)
  }

  // ---------------------------------------------------------------- the code

  class ArpOl {
    const config: Config
    var attached: bool
    var ip: u32
    var state: ConfigState
    var retry: int
    /** The device. */
    var hostIps: set<u32>
    var features: bv32
    var enabled: bool
    var timerStarts: nat

    function View(): Arp
      reads this
    {
      Arp(attached, ip, state, retry, hostIps, features, enabled, timerStarts)
    }

    constructor (config: Config, hostIps: set<u32>, features: bv32, enabled: bool)
      ensures this.config == config
      ensures View() == Arp(false, NULL_IP_ADDRESS, Uninitialized, DHCP_RETRY_COUNT, hostIps, features, enabled, 0)
    {
      this.config, attached, ip, state, retry := config, false, NULL_IP_ADDRESS, Uninitialized, DHCP_RETRY_COUNT;
      this.hostIps, this.features, this.enabled, timerStarts := hostIps, features, enabled, 0;
    }

    /** `cylpa_arp_ol_init`. */
    method Init(pointers: bool) returns (result: int)
      modifies this
      ensures View() == Step(config, old(View()), Start(pointers))
      ensures result == if pointers then RESULT_OK else RESULT_BADARGS
    {
      if !pointers {
        return RESULT_BADARGS;
      }
      ip := NULL_IP_ADDRESS;
      attached := true;
      state := Uninitialized;
      if config.newInfra {
        return RESULT_OK;
      }
      // start from an empty device
      if config.iface {
        enabled := true;
        features := 0;
        hostIps := {};
        enabled := false;
      }
      Pm(Awake);
      result := RESULT_OK;
    }

    /** `cylpa_arp_ol_deinit`. */
    method Deinit()
      modifies this
      ensures View() == Step(config, old(View()), Stop)
    {
      if !attached || config.newInfra {
        return;
      }
      state := Uninitialized;
      if config.iface {
        enabled := false;
      }
    }

    /** `cylpa_arp_ol_pm`. */
    method Pm(st: PmState)
      modifies this
      ensures View() == Step(config, old(View()), Notify(st))
    {
      if !attached || !config.iface || config.newInfra {
        return;
      }
      var newState := Configured(st);
      if newState == state {
        return;
      }
      if state == Uninitialized || config.awakeMask != config.sleepMask {
        enabled := true;
        features := EnableFlags(st);
      } else {
        features := 0;
        enabled := false;
      }
      state := newState;
    }

    /** The features to set for a power state. */
    method EnableFlags(st: PmState) returns (enableFlags: bv32)
      ensures enableFlags == WithAgent(MaskFor(config, st))
    {
      enableFlags := 0;
      if st == Awake && config.awakeMask != 0 {
        enableFlags := config.awakeMask;
      }
      if st == GoingToSleep && config.sleepMask != 0 {
        enableFlags := config.sleepMask;
      }
      if enableFlags & (HOST_AUTO_REPLY_ENABLE | PEER_AUTO_REPLY_ENABLE) != 0 {
        enableFlags := enableFlags | AGENT_ENABLE;
      }
    }

    /** `cylpa_arp_ol_nw_ip_change_timer_callback`, and the work it queues. */
    method TimerFires(addr: Option<u32>, link: Link)
      modifies this
      ensures View() == Step(config, old(View()), Work(addr, link))
    {
      if config.newInfra {
        return;
      }
      NwIpChangeWork(addr, link);
    }

    /** `cylpa_arp_ol_nw_ip_change_work`. */
    method NwIpChangeWork(addr: Option<u32>, link: Link)
      modifies this
      ensures View() == AfterWork(config, old(View()), Work(addr, link))
    {
      if !attached {
        return;
      }
      if addr.Some? && addr.value != NULL_IP_ADDRESS {
        if addr.value != ip {
          ClearHostIp(ip);
          ip := NULL_IP_ADDRESS;
        }
        AddHostIp(addr.value);
        ip := addr.value;
        retry := DHCP_RETRY_COUNT;
      } else {
        if ip != NULL_IP_ADDRESS {
          ClearHostIp(ip);
          ip := NULL_IP_ADDRESS;
        }
        if link == Success || link == InvalidJoinStatus || link == JoinInProgress {
          if ip == NULL_IP_ADDRESS {
            retry := retry - 1;
            if retry > 0 {
              timerStarts := timerStarts + 1;
            }
          }
        }
      }
    }

    /** The driver calls on the list of host addresses. */
    method ClearHostIp(a: u32)
      modifies this`hostIps
      ensures hostIps == Cleared(config, old(View()), a)
    {
      if config.iface {
        hostIps := hostIps - {a};
      }
    }

    method AddHostIp(a: u32)
      modifies this`hostIps
      ensures hostIps == Added(config, old(hostIps), a)
    {
      if config.iface {
        hostIps := hostIps + {a};
      }
    }
  }

  // ---------------------------------------------------------------- runs

  function Run(c: Config, a: Arp, es: seq<Event>): Arp {
    if es == [] then a else Step(c, Run(c, a, es[..|es| - 1]), es[|es| - 1])
  }

  /** The device answers for the recorded address and no other. */
  predicate HostIpsAreRecorded(a: Arp) {
    a.hostIps == if a.ip == NULL_IP_ADDRESS then {} else {a.ip}
  }

  /** After every run of the worker, and every other step, the device's host addresses are exactly the recorded
      one, whatever the device held before the offload was started. */
  lemma {:induction false} TracksAddress(c: Config, a: Arp, es: seq<Event>)
    requires Drives(c) && (a.attached ==> HostIpsAreRecorded(a))
    ensures var r := Run(c, a, es); r.attached ==> HostIpsAreRecorded(r)
  {
    if es != [] {
      TracksAddress(c, a, es[..|es| - 1]);
    }
  }

  /** With the offload built into the firmware, or without a radio interface, nothing here ever touches the device. */
  lemma {:induction false} DeviceUntouched(c: Config, a: Arp, es: seq<Event>)
    requires !Drives(c)
    ensures var r := Run(c, a, es);
            && r.hostIps == a.hostIps && r.features == a.features && r.enabled == a.enabled
            && (c.newInfra ==> r.timerStarts == a.timerStarts)
  {
    if es != [] {
      DeviceUntouched(c, a, es[..|es| - 1]);
    }
  }

  /** A start configures the offload exactly when it drives a device: otherwise it stays uninitialized, although the
      start reports success. */
  lemma StartConfiguresIff(c: Config, a: Arp)
    ensures Step(c, a, Start(true)).state == (if Drives(c) then Configured(Awake) else Uninitialized)
  {
  }

  /** Stopping an offload that drives a device switches it off and leaves the addresses alone. */
  lemma StopSwitchesOff(c: Config, a: Arp)
    requires Drives(c) && a.attached
    ensures var r := Step(c, a, Stop);
            !r.enabled && r.state == Uninitialized && r.hostIps == a.hostIps && r.ip == a.ip && r.retry == a.retry
  {
  }

  /** The address reported last, since the offload was started: null if the last report had none. */
  function LastReported(es: seq<Event>): u32 {
    if es == [] then NULL_IP_ADDRESS else Reported(es[|es| - 1], LastReported(es[..|es| - 1]))
  }

  /** What a step makes of the reported address. */
  function Reported(e: Event, before: u32): u32 {
    match e
    case Start(pointers) => if pointers then NULL_IP_ADDRESS else before
    case Work(addr, _) => if addr.Some? then addr.value else NULL_IP_ADDRESS
    case _ => before
  }

  lemma RecordsStep(c: Config, a: Arp, e: Event)
    requires Drives(c) && a.attached && HostIpsAreRecorded(a)
    ensures var r := Step(c, a, e); r.attached && r.ip == Reported(e, a.ip) && HostIpsAreRecorded(r)
  {
  }

  /** The recorded address, and with it the device's, is the one the IP stack reported last. */
  lemma {:induction false} RecordsLastReported(c: Config, a: Arp, es: seq<Event>)
    requires Drives(c) && a.attached && a.ip == NULL_IP_ADDRESS && a.hostIps == {}
    ensures var r := Run(c, a, es); r.attached && r.ip == LastReported(es) && HostIpsAreRecorded(r)
  {
    if es != [] {
      var was := es[..|es| - 1];
      RecordsLastReported(c, a, was);
      RecordsStep(c, Run(c, a, was), es[|es| - 1]);
    }
  }

  // ---------------------------------------------------------------- bounded retries

  /** The worker has got an address. */
  predicate GotAddress(e: Event) {
    match e
    case Work(Some(addr), _) => addr != NULL_IP_ADDRESS
    case _ => false
  }

  /** The worker has got none, and the link is up or coming up. */
  predicate GotNone(e: Event) {
    e.Work? && !GotAddress(e) && (e.link == Success || e.link == InvalidJoinStatus || e.link == JoinInProgress)
  }

  /** Runs of the worker since the last one with an address that found none and a link. */
  function MissesSince(es: seq<Event>): nat {
    if es == [] || GotAddress(es[|es| - 1]) then 0
    else MissesSince(es[..|es| - 1]) + if GotNone(es[|es| - 1]) then 1 else 0
  }

  /** Timer restarts since then. */
  function StartsSince(c: Config, a: Arp, es: seq<Event>): int {
    if es == [] || GotAddress(es[|es| - 1]) then 0
    else
      StartsSince(c, a, es[..|es| - 1])
      + Run(c, a, es).timerStarts - Run(c, a, es[..|es| - 1]).timerStarts
  }

  lemma SameEvents(e: Event)
    ensures GotAddress(e) <==> Acquires(e)
    ensures GotNone(e) <==> Misses(e)
  {
  }

  /** Only acquisitions and misses touch the retry count. */
  lemma CountStep(c: Config, a: Arp, e: Event)
    requires !c.newInfra && a.attached
    ensures var r := Step(c, a, e);
            && r.attached
            && (Acquires(e) ==> r.retry == DHCP_RETRY_COUNT)
            && (!Acquires(e) ==> r.retry == a.retry - if Misses(e) then 1 else 0)
            && (!Acquires(e) ==> r.timerStarts == a.timerStarts + if Misses(e) && a.retry > 1 then 1 else 0)
  {
  }

  lemma RetryStep(c: Config, a: Arp, e: Event)
    requires !c.newInfra && a.attached
    ensures var r := Step(c, a, e);
            && r.attached
            && (GotAddress(e) ==> r.retry == DHCP_RETRY_COUNT)
            && (!GotAddress(e) ==> r.retry == a.retry - if GotNone(e) then 1 else 0)
            && (!GotAddress(e) ==> r.timerStarts == a.timerStarts + if GotNone(e) && a.retry > 1 then 1 else 0)
  {
    SameEvents(e);
    CountStep(c, a, e);
  }

  /** Between acquisitions the worker restarts the DHCP timer at each of the first 24 misses and never again,
      over any run, restarts of the offload included. */
  lemma {:induction false} RetriesBounded(c: Config, a: Arp, es: seq<Event>)
    requires !c.newInfra && a.attached && a.retry == DHCP_RETRY_COUNT
    ensures Run(c, a, es).attached
    ensures Run(c, a, es).retry == DHCP_RETRY_COUNT - MissesSince(es)
    ensures var n := MissesSince(es);
            StartsSince(c, a, es) == if n <= 24 then n else 24
  {
    if es != [] {
      var was := es[..|es| - 1];
      RetriesBounded(c, a, was);
      RetryStep(c, Run(c, a, was), es[|es| - 1]);
    }
  }

  // ---------------------------------------------------------------- features

  /** What the device should run for a mask: the agent besides, with either auto-reply. */
  function Features(mask: bv32): bv32 {
    if mask & HOST_AUTO_REPLY_ENABLE != 0 || mask & PEER_AUTO_REPLY_ENABLE != 0 then mask | AGENT_ENABLE else mask
  }

  /** The device runs the features configured for the state it is in. */
  predicate FeaturesMatch(c: Config, a: Arp) {
    a.state.Configured? && a.enabled
    && a.features == Features(if a.state.st == Awake then c.awakeMask else c.sleepMask)
  }

  /** The same in terms of the steps. */
  predicate RunsFeatures(c: Config, a: Arp) {
    a.state.Configured? && a.enabled && a.features == WithAgent(MaskFor(c, a.state.st))
  }

  lemma AgentWithReplies(mask: bv32)
    ensures mask & (HOST_AUTO_REPLY_ENABLE | PEER_AUTO_REPLY_ENABLE) != 0
            <==> mask & HOST_AUTO_REPLY_ENABLE != 0 || mask & PEER_AUTO_REPLY_ENABLE != 0
  {
  }

  lemma FeaturesWithAgent(mask: bv32)
    ensures Features(mask) == WithAgent(mask)
  {
    AgentWithReplies(mask);
  }

  lemma MatchIsRuns(c: Config, a: Arp)
    ensures FeaturesMatch(c, a) <==> RunsFeatures(c, a)
  {
    if a.state.Configured? {
      FeaturesWithAgent(MaskFor(c, a.state.st));
    }
  }

  /** The notifications among a series of events. */
  predicate Notifications(es: seq<Event>) {
    forall i | 0 <= i < |es| :: es[i].Notify? || es[i].Work?
  }

  predicate EverSleeps(es: seq<Event>) {
    Notify(GoingToSleep) in es
  }

  lemma FeaturesStep(c: Config, a: Arp, e: Event)
    requires Drives(c) && a.attached && a.state.Configured? && (e.Notify? || e.Work?)
    ensures var r := Step(c, a, e);
            && r.attached && r.state == (if e.Notify? then Configured(e.st) else a.state)
            && (c.awakeMask != c.sleepMask && RunsFeatures(c, a) ==> RunsFeatures(c, r))
            && (c.awakeMask == c.sleepMask && a.state != r.state ==> !r.enabled && r.features == 0)
            && (a.state == r.state ==> r.enabled == a.enabled && r.features == a.features)
  {
  }

  lemma {:induction false} FeaturesInvariant(c: Config, a: Arp, es: seq<Event>)
    requires Drives(c) && Notifications(es)
    requires a.attached && a.state == Configured(Awake) && RunsFeatures(c, a)
    ensures var r := Run(c, a, es);
            && r.attached && r.state.Configured?
            && if c.awakeMask != c.sleepMask || !EverSleeps(es) then RunsFeatures(c, r) else !r.enabled && r.features == 0
    ensures !EverSleeps(es) ==> Run(c, a, es).state == Configured(Awake)
  {
    if es != [] {
      var m := |es| - 1;
      assert es == es[..m] + [es[m]];
      FeaturesInvariant(c, a, es[..m]);
      assert EverSleeps(es) <==> EverSleeps(es[..m]) || es[m] == Notify(GoingToSleep);
      FeaturesStep(c, Run(c, a, es[..m]), es[m]);
    }
  }

  lemma {:induction false} StaysUninitialized(c: Config, a: Arp, es: seq<Event>)
    requires !Drives(c) && Notifications(es) && a.state == Uninitialized
    ensures Run(c, a, es).state == Uninitialized
  {
    if es != [] {
      StaysUninitialized(c, a, es[..|es| - 1]);
    }
  }

  /** After a start, whatever was there before, the device runs the features of the current power state through
      every series of notifications and worker runs exactly when the offload drives a device, and the two configured
      masks differ or no sleep was ever notified: with equal masks the first change of state switches the offload
      off for good. */
  lemma {:induction false} FeaturesFollowPowerState(c: Config, a: Arp, es: seq<Event>)
    requires Notifications(es)
    ensures FeaturesMatch(c, Run(c, Step(c, a, Start(true)), es))
            <==> Drives(c) && (c.awakeMask != c.sleepMask || !EverSleeps(es))
  {
    MatchIsRuns(c, Run(c, Step(c, a, Start(true)), es));
    if Drives(c) {
      FeaturesInvariant(c, Step(c, a, Start(true)), es);
    } else {
      StaysUninitialized(c, Step(c, a, Start(true)), es);
    }
  }
}
