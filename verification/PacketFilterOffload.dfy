/** The packet-filter offload of `cy_lpa_wifi_pf_ol.c` as it runs: filters are built one after the
    other in two shared buffers, handed to the driver, and switched with the power state. */
module PacketFilterOffload {
  import opened PortMask
  import opened PacketFilter

  datatype PmState = GoingToSleep | Awake | OtherState

  /** The WLAN device as far as packet filters go. It copies a filter's bytes when the filter is
      added, and refuses to switch a filter it does not have. */
  class Whd {
    var installed: map<int, Filter>
    var enabled: set<int>

    constructor ()
      ensures installed == map[] && enabled == {}
    {
      installed, enabled := map[], {};
    }

    method AddFilter(id: int, offset: nat, pattern: array<bv8>, mask: array<bv8>, maskSize: nat, rule: Rule)
      requires maskSize <= pattern.Length && maskSize <= mask.Length
      modifies this
      ensures installed == old(installed)[id := Filter(id, offset, pattern[..maskSize], mask[..maskSize], rule)]
      ensures enabled == old(enabled)
    {
      installed := installed[id := Filter(id, offset, pattern[..maskSize], mask[..maskSize], rule)];
    }

    method EnableFilter(id: int) returns (ok: bool)
      modifies this`enabled
      ensures ok == (id in installed)
      ensures enabled == if ok then old(enabled) + {id} else old(enabled)
    {
      ok := id in installed;
      if ok {
        enabled := enabled + {id};
      }
    }

    method DisableFilter(id: int) returns (ok: bool)
      modifies this`enabled
      ensures ok == (id in installed)
      ensures enabled == if ok then old(enabled) - {id} else old(enabled)
    {
      ok := id in installed;
      if ok {
        enabled := enabled - {id};
      }
    }

    method RemoveFilter(id: int) returns (ok: bool)
      modifies this
      ensures ok == (id in old(installed))
      ensures installed == old(installed) - {id} && enabled == old(enabled) - {id}
    {
      ok := id in installed;
      installed := installed - {id};
      enabled := enabled - {id};
    }
  }

  // ---------------------------------------------------------------- specification

  predicate SleepBit(c: Cfg) { c.bits & ACTIVE_SLEEP != 0 }

  predicate WakeBit(c: Cfg) { c.bits & ACTIVE_WAKE != 0 }

  predicate AlwaysOn(c: Cfg) {
    c.bits & (ACTIVE_SLEEP | ACTIVE_WAKE) == ACTIVE_SLEEP | ACTIVE_WAKE
  }

  lemma AlwaysOnIsBoth(c: Cfg)
    ensures AlwaysOn(c) <==> SleepBit(c) && WakeBit(c)
  {
  }

  /** Whether the configuration wants a filter on in a state. */
  predicate Wanted(c: Cfg, st: PmState) {
    if st == GoingToSleep then SleepBit(c) else WakeBit(c)
  }

  function Installs(cfgs: seq<Cfg>): map<int, Filter> {
    if cfgs == [] then map[]
    else
      var c := cfgs[|cfgs| - 1];
      if c.feature.UnknownFeature? then Installs(cfgs[..|cfgs| - 1])
      else Installs(cfgs[..|cfgs| - 1])[c.id := Compile(c)]
  }

  /** Effect of one list entry of the enabling loop of `cylpa_pf_ol_init`. */
  function WakeStep(c: Cfg, present: set<int>, on: set<int>): set<int> {
    if WakeBit(c) && c.id in present then on + {c.id} else on
  }

  function WakeAll(cfgs: seq<Cfg>, present: set<int>, on: set<int>): set<int> {
    if cfgs == [] then on
    else WakeStep(cfgs[|cfgs| - 1], present, WakeAll(cfgs[..|cfgs| - 1], present, on))
  }

  /** Effect of one list entry of the loop of `cylpa_pf_ol_pm`. */
  function PmStep(c: Cfg, st: PmState, present: set<int>, on: set<int>): set<int> {
    if AlwaysOn(c) || st == OtherState || c.id !in present then on
    else if Wanted(c, st) then on + {c.id}
    else on - {c.id}
  }

  function PmAll(cfgs: seq<Cfg>, st: PmState, present: set<int>, on: set<int>): set<int> {
    if cfgs == [] then on
    else PmStep(cfgs[|cfgs| - 1], st, present, PmAll(cfgs[..|cfgs| - 1], st, present, on))
  }

  /** A run of notifications. */
  function PmRun(cfgs: seq<Cfg>, present: set<int>, on: set<int>, events: seq<PmState>): set<int> {
    if events == [] then on
    else PmAll(cfgs, events[|events| - 1], present, PmRun(cfgs, present, on, events[..|events| - 1]))
  }

  /** The state that a run of notifications leaves the host in; it starts awake. */
  function LastState(events: seq<PmState>): PmState {
    if events == [] then Awake
    else if events[|events| - 1] == OtherState then LastState(events[..|events| - 1])
    else events[|events| - 1]
  }

  predicate UniqueIds(cfgs: seq<Cfg>) {
    forall i, j | 0 <= i < j < |cfgs| :: cfgs[i].id != cfgs[j].id
  }

  function Ids(cfgs: seq<Cfg>): set<int> {
    set c | c in cfgs :: c.id
  }

  /** The filters that should be on in a state, among those the device has. */
  function WantedIds(cfgs: seq<Cfg>, st: PmState, present: set<int>): set<int> {
    set c | c in cfgs && Wanted(c, st) && c.id in present :: c.id
  }

  // ---------------------------------------------------------------- the offload

  const GLOB_BUF_LEN: nat := 32

  class PfOl {
    var cfgs: seq<Cfg>
    var whd: Whd?
    /** `cylpa_glob_pat_buf` and `cylpa_glob_mask_buf`. */
    const patBuf: array<bv8>
    const maskBuf: array<bv8>

    ghost predicate Valid()
      reads this
    {
      patBuf.Length == GLOB_BUF_LEN && maskBuf.Length == GLOB_BUF_LEN && patBuf != maskBuf
    }

    constructor (patBuf: array<bv8>, maskBuf: array<bv8>)
      requires patBuf.Length == GLOB_BUF_LEN && maskBuf.Length == GLOB_BUF_LEN && patBuf != maskBuf
      ensures Valid() && this.patBuf == patBuf && this.maskBuf == maskBuf && cfgs == [] && whd == null
    {
      this.patBuf, this.maskBuf := patBuf, maskBuf;
      cfgs, whd := [], null;
    }

    /** `memcpy` into one of the buffers. */
    static method Copy(buf: array<bv8>, at: nat, s: seq<bv8>)
      requires at + |s| <= buf.Length
      modifies buf
      ensures forall i | at <= i < at + |s| :: buf[i] == s[i - at]
      ensures forall i | 0 <= i < at || at + |s| <= i < buf.Length :: buf[i] == old(buf[i])
    {
      forall i | 0 <= i < |s| {
        buf[at + i] := s[i];
      }
    }

    /** A zeroed IPv4 header with its protocol field set. */
    static function IpHeader(prot: bv8): (h: seq<bv8>)
      ensures |h| == IPV4_LEN
    {
      seq(IPV4_LEN, _ => 0)[PROT_AT := prot]
    }

    /** A zeroed UDP header with its port fields set in network order. */
    static function UdpHeader(src: bv16, dst: bv16): (h: seq<bv8>)
      ensures |h| == UDP_LEN
    {
      [HiByte(src), LoByte(src), HiByte(dst), LoByte(dst), 0, 0, 0, 0]
    }

    static method CopyIp(buf: array<bv8>, etherType: bv16, prot: bv8)
      requires buf.Length == GLOB_BUF_LEN
      modifies buf
      ensures forall i | 0 <= i < ETHER_TYPE_LEN + IPV4_LEN :: buf[i] == Layout(etherType, prot, 0, 0, i)
    {
      Copy(buf, 0, [HiByte(etherType), LoByte(etherType)]);
      Copy(buf, ETHER_TYPE_LEN, IpHeader(prot));
    }

    static method CopyPort(buf: array<bv8>, etherType: bv16, prot: bv8, src: bv16, dst: bv16)
      requires buf.Length == GLOB_BUF_LEN
      modifies buf
      ensures buf[..PORT_FILTER_LEN] == LayoutBytes(PORT_FILTER_LEN, etherType, prot, src, dst)
    {
      CopyIp(buf, etherType, prot);
      Copy(buf, ETHER_TYPE_LEN + IPV4_LEN, UdpHeader(src, dst));
    }

    method CreateIpFilter(whd: Whd, c: Cfg)
      requires Valid() && c.feature.IpType?
      modifies whd, patBuf, maskBuf
      ensures whd.installed == old(whd.installed)[c.id := Compile(c)] && whd.enabled == old(whd.enabled)
    {
      CopyIp(maskBuf, 0xffff, 0xff);
      CopyIp(patBuf, ETHER_TYPE_IP, c.feature.ipType);
      assert maskBuf[..22] == Mask(c.feature) && patBuf[..22] == Pattern(c.feature);
      whd.AddFilter(c.id, ETHTYPE_OFFSET, patBuf, maskBuf, ETHER_TYPE_LEN + IPV4_LEN, RuleOf(c.bits));
    }

    method CreateEthTypeFilter(whd: Whd, c: Cfg)
      requires Valid() && c.feature.EthType?
      modifies whd, patBuf, maskBuf
      ensures whd.installed == old(whd.installed)[c.id := Compile(c)] && whd.enabled == old(whd.enabled)
    {
      Copy(maskBuf, 0, [HiByte(0xffff), LoByte(0xffff)]);
      Copy(patBuf, 0, [HiByte(c.feature.ethType), LoByte(c.feature.ethType)]);
      assert maskBuf[..2] == Mask(c.feature) && patBuf[..2] == Pattern(c.feature);
      whd.AddFilter(c.id, ETHTYPE_OFFSET, patBuf, maskBuf, ETHER_TYPE_LEN, RuleOf(c.bits));
    }

    method CreatePortFilter(whd: Whd, c: Cfg, pattern: bv16, mask: bv16)
      requires Valid() && c.feature.PortNum?
      requires pattern == c.feature.portnum && mask == PortMaskOf(c.feature)
      modifies whd, patBuf, maskBuf
      ensures whd.installed == old(whd.installed)[c.id := Compile(c)] && whd.enabled == old(whd.enabled)
    {
      var srcPattern, srcMask, dstPattern, dstMask: bv16 := 0, 0, 0, 0;
      if c.feature.direction == PORT_SOURCE {
        srcPattern, srcMask := pattern, mask;
      } else if c.feature.direction == PORT_DEST {
        dstPattern, dstMask := pattern, mask;
      } else {
        srcPattern, srcMask, dstPattern, dstMask := pattern, mask, pattern, mask;
      }
      var prot := if c.feature.proto == PROTOCOL_UDP then IP_PROTO_UDP else IP_PROTO_TCP;
      CopyPort(maskBuf, 0xffff, 0xff, srcMask, dstMask);
      CopyPort(patBuf, ETHER_TYPE_IP, prot, srcPattern, dstPattern);
      whd.AddFilter(c.id, ETHTYPE_OFFSET, patBuf, maskBuf, PORT_FILTER_LEN, RuleOf(c.bits));
    }

    method CreateFilter(whd: Whd, c: Cfg)
      requires Valid()
      modifies whd, patBuf, maskBuf
      ensures whd.installed == if c.feature.UnknownFeature? then old(whd.installed) else old(whd.installed)[c.id := Compile(c)]
      ensures whd.enabled == old(whd.enabled)
    {
      match c.feature
      case PortNum(port, range, _, _) =>
        var pattern, mask := PortnumMask(port, range);
        CreatePortFilter(whd, c, pattern, mask);
      case EthType(_) => CreateEthTypeFilter(whd, c);
      case IpType(_) => CreateIpFilter(whd, c);
      case UnknownFeature(_) =>
    }

    method Init(cfgs: seq<Cfg>, whd: Whd)
      requires Valid()
      modifies this, whd, patBuf, maskBuf
      ensures Valid() && this.cfgs == cfgs && this.whd == whd
      ensures whd.installed == old(whd.installed) + Installs(cfgs)
      ensures whd.enabled == WakeAll(cfgs, whd.installed.Keys, old(whd.enabled))
    {
      this.cfgs := cfgs;
      this.whd := whd;
      CreateAll(cfgs, whd);
      EnableWake(cfgs, whd);
    }

    /** The first loop of `cylpa_pf_ol_init`. */
    method CreateAll(cfgs: seq<Cfg>, whd: Whd)
      requires Valid()
      modifies whd, patBuf, maskBuf
      ensures whd.installed == old(whd.installed) + Installs(cfgs) && whd.enabled == old(whd.enabled)
    {
      for i := 0 to |cfgs|
        invariant whd.installed == old(whd.installed) + Installs(cfgs[..i])
        invariant whd.enabled == old(whd.enabled)
      {
        assert cfgs[..i + 1][..i] == cfgs[..i];
        CreateFilter(whd, cfgs[i]);
      }
      assert cfgs[..|cfgs|] == cfgs;
    }

    /** The second loop: the host is awake now. */
    method EnableWake(cfgs: seq<Cfg>, whd: Whd)
      modifies whd
      ensures whd.installed == old(whd.installed)
      ensures whd.enabled == WakeAll(cfgs, whd.installed.Keys, old(whd.enabled))
    {
      for i := 0 to |cfgs|
        invariant whd.installed == old(whd.installed)
        invariant whd.enabled == WakeAll(cfgs[..i], whd.installed.Keys, old(whd.enabled))
      {
        assert cfgs[..i + 1][..i] == cfgs[..i];
        if cfgs[i].bits & ACTIVE_WAKE != 0 {
          var _ := whd.EnableFilter(cfgs[i].id);
        }
      }
      assert cfgs[..|cfgs|] == cfgs;
    }

    method Pm(st: PmState)
      requires Valid()
      modifies if whd != null then {whd} else {}
      ensures Valid() && cfgs == old(cfgs) && whd == old(whd)
      ensures whd != null ==> whd.installed == old(whd.installed)
      ensures whd != null ==> whd.enabled == PmAll(cfgs, st, whd.installed.Keys, old(whd.enabled))
    {
      if whd == null {
        return;
      }
      for i := 0 to |cfgs|
        invariant whd.installed == old(whd.installed)
        invariant whd.enabled == PmAll(cfgs[..i], st, whd.installed.Keys, old(whd.enabled))
      {
        assert cfgs[..i + 1][..i] == cfgs[..i];
        var c := cfgs[i];
        // a filter with both bits stays as it is
        if c.bits & (ACTIVE_SLEEP | ACTIVE_WAKE) != ACTIVE_SLEEP | ACTIVE_WAKE {
          match st
          case GoingToSleep =>
            if c.bits & ACTIVE_SLEEP != 0 {
              var _ := whd.EnableFilter(c.id);
            } else {
              var _ := whd.DisableFilter(c.id);
            }
          case Awake =>
            if c.bits & ACTIVE_WAKE != 0 {
              var _ := whd.EnableFilter(c.id);
            } else {
              var _ := whd.DisableFilter(c.id);
            }
          case OtherState =>
        }
      }
      assert cfgs[..|cfgs|] == cfgs;
    }

    method Deinit()
      requires Valid()
      modifies if whd != null then {whd} else {}
      ensures Valid() && cfgs == old(cfgs) && whd == old(whd)
      ensures whd != null ==> whd.installed == old(whd.installed) - Ids(cfgs)
      ensures whd != null ==> whd.enabled == old(whd.enabled) - Ids(cfgs)
    {
      if whd == null {
        return;
      }
      for i := 0 to |cfgs|
        invariant whd.installed == old(whd.installed) - Ids(cfgs[..i])
        invariant whd.enabled == old(whd.enabled) - Ids(cfgs[..i])
      {
        var _ := whd.RemoveFilter(cfgs[i].id);
        IdsGrow(cfgs, i);
      }
      assert cfgs[..|cfgs|] == cfgs;
    }
  }

  lemma IdsGrow(cfgs: seq<Cfg>, i: nat)
    requires i < |cfgs|
    ensures Ids(cfgs[..i + 1]) == Ids(cfgs[..i]) + {cfgs[i].id}
  {
    assert cfgs[..i + 1] == cfgs[..i] + [cfgs[i]];
  }

  // ---------------------------------------------------------------- runs

  lemma {:induction false} InstallsKeys(cfgs: seq<Cfg>)
    ensures Installs(cfgs).Keys <= Ids(cfgs)
    ensures (forall c | c in cfgs :: !c.feature.UnknownFeature?) ==> Installs(cfgs).Keys == Ids(cfgs)
  {
    if cfgs != [] {
      var n := |cfgs| - 1;
      InstallsKeys(cfgs[..n]);
      IdsGrow(cfgs, n);
      assert cfgs[..n + 1] == cfgs;
    }
  }

  /** History independence: whatever was built before it in the shared buffers, what the device holds
      for a configured filter is compiled from that filter's own description. */
  lemma {:induction false} InstalledIsCompiled(cfgs: seq<Cfg>, i: nat)
    requires UniqueIds(cfgs) && i < |cfgs| && !cfgs[i].feature.UnknownFeature?
    ensures cfgs[i].id in Installs(cfgs) && Installs(cfgs)[cfgs[i].id] == Compile(cfgs[i])
  {
    var n := |cfgs| - 1;
    if i < n {
      InstalledIsCompiled(cfgs[..n], i);
    }
  }

  /** What the device then does with a frame is what the description says, for every filter of every list. */
  lemma InstalledMeans(cfgs: seq<Cfg>, i: nat, frame: seq<bv8>)
    requires UniqueIds(cfgs) && i < |cfgs| && !cfgs[i].feature.UnknownFeature?
    requires HeaderMeant(cfgs[i].feature, frame)
    ensures cfgs[i].id in Installs(cfgs)
    ensures var f := Installs(cfgs)[cfgs[i].id];
            && |f.pattern| == |f.mask| && (Matches(f, frame) <==> Satisfies(cfgs[i].feature, frame))
            && (PassedUp(f, frame) <==> (Satisfies(cfgs[i].feature, frame) <==> cfgs[i].bits & ACTION_DISCARD == 0))
  {
    InstalledIsCompiled(cfgs, i);
    CompilationPreservesMeaning(cfgs[i], frame);
    ActionMeans(cfgs[i], frame);
  }

  /** De-initialization removes everything that start-up installed and keeps what other owners have installed
      under other ids. */
  lemma DeinitUndoesInit(cfgs: seq<Cfg>, others: map<int, Filter>)
    requires others.Keys !! Ids(cfgs)
    ensures others + Installs(cfgs) - Ids(cfgs) == others
  {
    InstallsKeys(cfgs);
  }

  /** What `cylpa_pf_ol_init` turns on. */
  lemma {:induction false} WakeAllMember(cfgs: seq<Cfg>, present: set<int>, on: set<int>, x: int)
    ensures x in WakeAll(cfgs, present, on) <==> x in on || x in WantedIds(cfgs, Awake, present)
  {
    if cfgs != [] {
      var n := |cfgs| - 1;
      WakeAllMember(cfgs[..n], present, on, x);
      assert cfgs == cfgs[..n] + [cfgs[n]];
    }
  }

  lemma {:induction false} PmAllOther(cfgs: seq<Cfg>, present: set<int>, on: set<int>)
    ensures PmAll(cfgs, OtherState, present, on) == on
  {
    if cfgs != [] {
      PmAllOther(cfgs[..|cfgs| - 1], present, on);
    }
  }

  lemma {:induction false} PmAllForeign(cfgs: seq<Cfg>, st: PmState, present: set<int>, on: set<int>, x: int)
    requires x !in Ids(cfgs) || x !in present
    ensures x in PmAll(cfgs, st, present, on) <==> x in on
  {
    if cfgs != [] {
      var n := |cfgs| - 1;
      IdsGrow(cfgs, n);
      assert cfgs[..n + 1] == cfgs;
      PmAllForeign(cfgs[..n], st, present, on, x);
    }
  }

  /** What one notification does to one configured filter. */
  lemma {:induction false} PmAllMember(cfgs: seq<Cfg>, st: PmState, present: set<int>, on: set<int>, i: nat)
    requires UniqueIds(cfgs) && i < |cfgs| && cfgs[i].id in present && st != OtherState
    ensures cfgs[i].id in PmAll(cfgs, st, present, on)
            <==> if AlwaysOn(cfgs[i]) then cfgs[i].id in on else Wanted(cfgs[i], st)
  {
    var n := |cfgs| - 1;
    if i < n {
      PmAllMember(cfgs[..n], st, present, on, i);
    } else {
      assert cfgs[i].id !in Ids(cfgs[..n]);
      PmAllForeign(cfgs[..n], st, present, on, cfgs[i].id);
    }
  }

  /** One notification turns the set wanted in any state into the set wanted in the new one; what `others` have
      enabled stays. */
  lemma {:induction false} PmTracks(cfgs: seq<Cfg>, before: PmState, st: PmState, present: set<int>, others: set<int>)
    requires UniqueIds(cfgs) && st != OtherState && before != OtherState && others !! Ids(cfgs)
    ensures PmAll(cfgs, st, present, others + WantedIds(cfgs, before, present)) == others + WantedIds(cfgs, st, present)
  {
    var on := others + WantedIds(cfgs, before, present);
    var after := PmAll(cfgs, st, present, on);
    forall x
      ensures x in after <==> x in others || x in WantedIds(cfgs, st, present)
    {
      if x in Ids(cfgs) && x in present {
        var i :| 0 <= i < |cfgs| && cfgs[i].id == x;
        PmAllMember(cfgs, st, present, on, i);
        AlwaysOnIsBoth(cfgs[i]);
        assert forall c | c in cfgs && c.id == x :: c == cfgs[i];
      } else {
        PmAllForeign(cfgs, st, present, on, x);
      }
    }
  }

  /** Enabled filters track the power state over every run of notifications after start-up: of the configured
      filters the device has on exactly those whose bit for the current state is set, and filters that others have
      enabled under other ids stay on. */
  lemma {:induction false} EnabledTracksPowerState(cfgs: seq<Cfg>, present: set<int>, others: set<int>, events: seq<PmState>)
    requires UniqueIds(cfgs) && others !! Ids(cfgs)
    ensures PmRun(cfgs, present, WakeAll(cfgs, present, others), events)
         == others + WantedIds(cfgs, LastState(events), present)
    ensures LastState(events) != OtherState
  {
    if events == [] {
      forall x
        ensures x in WakeAll(cfgs, present, others) <==> x in others || x in WantedIds(cfgs, Awake, present)
      {
        WakeAllMember(cfgs, present, others, x);
      }
    } else {
      var n := |events| - 1;
      EnabledTracksPowerState(cfgs, present, others, events[..n]);
      if events[n] == OtherState {
        PmAllOther(cfgs, present, PmRun(cfgs, present, WakeAll(cfgs, present, others), events[..n]));
      } else {
        PmTracks(cfgs, LastState(events[..n]), events[n], present, others);
      }
    }
  }

  /** The same for one filter and its bits: an installed filter is on exactly when its sleep bit is set and the last
      notification was a sleep, or its wake bit is set and it was not. */
  lemma {:induction false} EnabledIff(cfgs: seq<Cfg>, present: set<int>, others: set<int>, events: seq<PmState>, i: nat)
    requires UniqueIds(cfgs) && others !! Ids(cfgs) && i < |cfgs| && cfgs[i].id in present
    ensures cfgs[i].id in PmRun(cfgs, present, WakeAll(cfgs, present, others), events)
            <==> cfgs[i].bits & (if LastState(events) == GoingToSleep then ACTIVE_SLEEP else ACTIVE_WAKE) != 0
  {
    EnabledTracksPowerState(cfgs, present, others, events);
    assert cfgs[i].id in Ids(cfgs);
    assert forall c | c in cfgs && c.id == cfgs[i].id :: c == cfgs[i];
  }
}
