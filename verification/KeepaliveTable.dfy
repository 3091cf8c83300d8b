/** The connection table of `cy_lpa_wifi_tko_ol.c`: `cylpa_tko_ol_update_config`. */
module KeepaliveTable {
  import opened Wrappers
  import opened Words

  /** The firmware's number of offloaded connections. */
  const MAX_TKO: nat := 4
  const IP_LEN: nat := 16
  const RESULT_OK: int := 0

  /** An address as the table stores it: zero-padded to its field. */
  type IpField = s: seq<char> | |s| == IP_LEN witness seq(IP_LEN, _ => '\0')

  datatype Connect = Connect(localPort: u16, remotePort: u16, remoteIp: IpField)

  datatype Timing = Timing(interval: u16, retryInterval: u16, retryCount: u16)

  /** The arguments of one call; `None` is a NULL pointer. */
  datatype Update = Update(remoteIp: Option<string>, remotePort: u16, localPort: u16, timing: Option<Timing>)

  predicate Accepted(u: Update) {
    u.remoteIp.Some? && u.remotePort != 0 && u.localPort != 0 && u.timing.Some?
  }

  /** The address, if it is stored at all, does not run past its field. */
  predicate Fits(u: Update) {
    Accepted(u) ==> |u.remoteIp.value| <= IP_LEN
  }

  function Padded(ip: string): IpField
    requires |ip| <= IP_LEN
  {
    ip + seq(IP_LEN - |ip|, _ => '\0')
  }

  function ConnectOf(u: Update): Connect
    requires Accepted(u) && Fits(u)
  {
    Connect(u.localPort, u.remotePort, Padded(u.remoteIp.value))
  }

  /** A table entry holds the ports of a call and its address, zero-padded. */
  predicate Stores(k: Connect, u: Update) {
    u.remoteIp.Some?
    && var ip := u.remoteIp.value;
    && k.localPort == u.localPort && k.remotePort == u.remotePort
    && |ip| <= IP_LEN && k.remoteIp[..|ip|] == ip
    && forall i | |ip| <= i < IP_LEN :: k.remoteIp[i] == '\0'
  }

  /** The globals `cy_tko_ol_cfg` and `cy_tko_ol_cfg_index` as a value. */
  datatype Table = Table(ports: seq<Connect>, index: nat, timing: Timing)

  predicate WellFormed(t: Table) {
    |t.ports| == MAX_TKO && t.index <= MAX_TKO
  }

  function Step(t: Table, u: Update): (r: Table)
    requires WellFormed(t) && Fits(u)
    ensures WellFormed(r)
  {
    if !Accepted(u) then t
    else
      var i := if t.index == MAX_TKO then 0 else t.index;
      Table(t.ports[i := ConnectOf(u)], i + 1, u.timing.value)
  }

  class TkoConfig {
    const ports: array<Connect>
    var index: u8
    var interval: u16
    var retryInterval: u16
    var retryCount: u16

    ghost function View(): Table
      reads this, ports
    {
      Table(ports[..], index, Timing(interval, retryInterval, retryCount))
    }

    constructor (ports: array<Connect>)
      requires ports.Length == MAX_TKO
      ensures WellFormed(View()) && index == 0 && this.ports == ports && ports[..] == old(ports[..])
    {
      this.ports, index, interval, retryInterval, retryCount := ports, 0, 0, 0, 0;
    }

    /** `cylpa_tko_ol_update_config`. With `overrun` the address is copied past the end of its field, and nothing is
        said of the rest. */
    method UpdateConfig(u: Update) returns (overrun: bool, result: int)
      requires WellFormed(View())
      modifies this, ports
      ensures overrun == !Fits(u)
      ensures !overrun ==> View() == Step(old(View()), u) && result == RESULT_OK
      ensures u.remoteIp.None? || u.remotePort == 0 || u.localPort == 0 || u.timing.None? ==>
                !overrun && View() == old(View())
      ensures !overrun && u.remoteIp.Some? && u.remotePort != 0 && u.localPort != 0 && u.timing.Some? ==>
                && index == (if old(index) == MAX_TKO then 1 else old(index) + 1)
                && Stores(ports[index - 1], u)
                && interval == u.timing.value.interval && retryInterval == u.timing.value.retryInterval
                && retryCount == u.timing.value.retryCount
    {
      overrun, result := false, RESULT_OK;
      if u.remoteIp.None? || u.remotePort == 0 || u.localPort == 0 || u.timing.None? {
        return;
      }
      if index == MAX_TKO {
        index := 0;
      }
      if |u.remoteIp.value| > IP_LEN {
        overrun := true;
        return;
      }
      ports[index] := Connect(u.localPort, u.remotePort, Padded(u.remoteIp.value));
      interval := u.timing.value.interval;
      retryCount := u.timing.value.retryCount;
      retryInterval := u.timing.value.retryInterval;
      index := index + 1;
    }
  }

  // ---------------------------------------------------------------- runs of updates

  function Run(t: Table, us: seq<Update>): (r: Table)
    requires WellFormed(t) && forall u | u in us :: Fits(u)
    ensures WellFormed(r)
  {
    if us == [] then t else Step(Run(t, us[..|us| - 1]), us[|us| - 1])
  }

  /** The calls that the function accepts, in order. */
  function AcceptedOf(us: seq<Update>): (r: seq<Update>)
    requires forall u | u in us :: Fits(u)
    ensures forall i | 0 <= i < |r| :: Accepted(r[i]) && Fits(r[i])
  {
    if us == [] then []
    else AcceptedOf(us[..|us| - 1]) + if Accepted(us[|us| - 1]) then [us[|us| - 1]] else []
  }

  /** The position that `n` accepted updates leave the index at. */
  function IndexAfter(n: nat): nat {
    if n == 0 then 0 else (n - 1) % MAX_TKO + 1
  }

  lemma NextSlot(n: nat)
    ensures (if IndexAfter(n) == MAX_TKO then 0 else IndexAfter(n)) == n % MAX_TKO
    ensures IndexAfter(n + 1) == n % MAX_TKO + 1
  {
  }

  /** Two updates less than MAX_TKO apart are in different slots. */
  lemma SlotsDiffer(a: nat, b: nat)
    requires a < b < a + MAX_TKO
    ensures a % MAX_TKO != b % MAX_TKO
  {
  }

  /** `r` holds the most recent of the accepted updates `vs`: number u in slot u mod MAX_TKO for each of the last
      MAX_TKO of them; slots not yet reached are as in `t`. */
  predicate HoldsLast(t: Table, r: Table, vs: seq<Update>)
    requires WellFormed(t) && WellFormed(r) && forall i | 0 <= i < |vs| :: Accepted(vs[i]) && Fits(vs[i])
  {
    && r.index == IndexAfter(|vs|) <= MAX_TKO
    && (forall u: nat | u < |vs| <= u + MAX_TKO :: Stores(r.ports[u % MAX_TKO], vs[u]))
    && (forall s | |vs| <= s < MAX_TKO :: r.ports[s] == t.ports[s])
    && (if vs == [] then r.timing == t.timing else vs[|vs| - 1].timing == Some(r.timing))
  }

  /** One more accepted update replaces the oldest. */
  lemma {:induction false} HoldsNext(t: Table, r: Table, vs: seq<Update>, v: Update)
    requires WellFormed(t) && WellFormed(r) && forall i | 0 <= i < |vs| :: Accepted(vs[i]) && Fits(vs[i])
    requires HoldsLast(t, r, vs) && Accepted(v) && Fits(v)
    ensures HoldsLast(t, Step(r, v), vs + [v])
  {
    var n := |vs|;
    var next := Step(r, v);
    NextSlot(n);
    forall u: nat | u < n + 1 <= u + MAX_TKO
      ensures Stores(next.ports[u % MAX_TKO], (vs + [v])[u])
    {
      if u < n {
        SlotsDiffer(u, n);
      }
    }
  }

  /** The table keeps the most recent connections: starting at index 0, after any calls, the accepted ones among
      them are held as above, the index is within its bounds, and the timing is that of the last accepted call. */
  lemma {:induction false} KeepsMostRecent(t: Table, us: seq<Update>)
    requires WellFormed(t) && t.index == 0 && forall u | u in us :: Fits(u)
    ensures HoldsLast(t, Run(t, us), AcceptedOf(us))
  {
    if us != [] {
      var m := |us| - 1;
      var before := us[..m];
      KeepsMostRecent(t, before);
      if Accepted(us[m]) {
        HoldsNext(t, Run(t, before), AcceptedOf(before), us[m]);
      } else {
        assert AcceptedOf(us) == AcceptedOf(before);
      }
    }
  }
}
