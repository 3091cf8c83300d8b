/** Port blocks of `cy_lpa_wifi_pf_ol.c`: how a port number and a range become a 16-bit pattern and
    mask, and which ports the pair then matches. C `int` values are 32-bit two's complement. */
module PortMask {

  /** `IS_POWER`. */
  predicate IsPower(x: bv32) {
    x != 0 && x & (x - 1) == 0
  }

  /** `1 << n`. */
  function Bit(n: bv32): bv32
    requires n <= 31
  {
    1 << n
  }

  /** `cylpa_sign_extend`. */
  function SignExtend(val: bv32, width: bv32): bv32
    requires 1 <= width <= 16
  {
    var mask: bv32 := Bit(width - 1);
    var low := val & (Bit(width) - 1);
    (low ^ mask) - mask
  }

  /** `IS_POWER` tests for a power of two. */
  lemma IsPowerMeans(x: bv32)
    ensures IsPower(x) <==> exists n: bv32 | n <= 31 :: x == Bit(n)
  {
    if IsPower(x) {
      var n := BitOf(x);
      assert x == Bit(n);
    } else if n: bv32 :| n <= 31 && x == Bit(n) {
      BitIsPower(n);
    }
  }

  lemma BitIsPower(n: bv32)
    requires n <= 31
    ensures IsPower(Bit(n))
  {
  }

  /** The number of the bit of a power of two. */
  lemma BitOf(x: bv32) returns (n: bv32)
    requires IsPower(x)
    ensures n <= 31 && x == Bit(n)
  {
    n := 0;
    while Bit(n) != x
      invariant n <= 31 && x >= Bit(n)
      decreases 31 - n
    {
      n := n + 1;
    }
  }

  const MAX_BITS_IN_PORTNUM: bv32 := 16
  const MINUS_ONE: bv32 := 0xffff_ffff

  /** No bit of `val` from `pos` on is set. */
  predicate ClearFrom(val: bv32, pos: bv32)
    requires pos <= 16
  {
    val >> pos == 0
  }

  /** `width` counts the bits of `val` up to its highest set bit. */
  predicate IsWidth(val: bv32, width: bv32) {
    1 <= width <= 16 && val >> (width - 1) == 1
  }

  /** Under a bit above which there are none, the next bit decides. */
  lemma NextBit(val: bv32, pos: bv32)
    requires pos < 16 && ClearFrom(val, pos + 1)
    ensures val & Bit(pos) != 0 ==> IsWidth(val, pos + 1) && val != 0
    ensures val & Bit(pos) == 0 ==> ClearFrom(val, pos)
  {
  }

  lemma NoBitsLeft(val: bv32)
    requires ClearFrom(val, 0)
    ensures val == 0
  {
  }

  lemma SixteenBits(val: bv32)
    requires val <= 0xffff
    ensures ClearFrom(val, MAX_BITS_IN_PORTNUM)
  {
  }

  lemma Down(pos: bv32)
    requires 0 < pos <= 16
    ensures pos - 1 < 16 && pos - 1 < pos && (pos - 1) + 1 == pos
  {
  }

  /** `cylpa_bitwidth`: position of the highest set bit of a 16-bit value, counted from 1. */
  method Bitwidth(val: bv32) returns (width: bv32)
    requires val <= 0xffff
    ensures val == 0 ==> width == MINUS_ONE
    ensures val != 0 ==> IsWidth(val, width)
  {
    var pos := MAX_BITS_IN_PORTNUM;
    SixteenBits(val);
    while pos > 0
      invariant pos <= 16 && ClearFrom(val, pos)
      decreases pos
    {
      Down(pos);
      pos := pos - 1;
      NextBit(val, pos);
      if val & Bit(pos) != 0 {
        return pos + 1;
      }
    }
    NoBitsLeft(val);
    return MINUS_ONE;
  }

  function Min(a: bv16, b: bv16): bv16 {
    if a < b then a else b
  }

  /** The guard of `cylpa_pf_ol_init` for treating a port filter as a block. */
  predicate IsBlock(port: bv16, range: bv16) {
    IsPower(port as bv32) && IsPower((range as bv32) + 1) && range != 0
  }

  /** How many ports after the first a filter covers. */
  function Extent(port: bv16, range: bv16): bv16 {
    if IsBlock(port, range) then Min(range, port - 1) else 0
  }

  /** `cylpa_create_portnum_range_mask`. */
  method RangeMask(port: bv16, range: bv16) returns (pattern: bv16, mask: bv16)
    requires IsBlock(port, range)
    ensures pattern == port
    ensures mask == !Extent(port, range)
  {
    pattern := port;
    mask := ((port - 1) ^ range) | port;
    var width := Bitwidth(mask as bv32);
    mask := (SignExtend(mask as bv32, width) & 0xffff) as bv16;
  }

  /** The choice in `cylpa_pf_ol_init` between `cylpa_create_single_portnum_mask` and the block. */
  method PortnumMask(port: bv16, range: bv16) returns (pattern: bv16, mask: bv16)
    ensures pattern == port
    ensures mask == !Extent(port, range)
  {
    if !IsPower(port as bv32) || !IsPower((range as bv32) + 1) || range == 0 {
      pattern, mask := port, 0xffff;
    } else {
      pattern, mask := RangeMask(port, range);
    }
  }

  /** Whether the device matches port `p`. */
  predicate Accepts(port: bv16, range: bv16, p: bv16) {
    Hit(p, port, !Extent(port, range))
  }

  /** `p` is one of the ports first .. first + extent. */
  predicate InBlock(first: bv16, extent: bv16, p: bv16) {
    first <= p && p - first <= extent
  }

  lemma AtMostZero(d: bv16, e: bv16)
    requires e == 0
    ensures d <= e <==> d == 0
  {
  }

  lemma ZeroDifference(a: bv16, b: bv16)
    ensures a - b == 0 <==> a == b
  {
  }

  lemma KeepsAllBits(p: bv16, e: bv16)
    requires e == 0
    ensures p & !e == p
  {
  }

  lemma SelfAtMost(a: bv16, b: bv16)
    requires a == b
    ensures a <= b
  {
  }

  lemma SingleBlock(port: bv16, e: bv16, p: bv16)
    requires e == 0
    ensures p & !e == port <==> port <= p && p - port <= e
  {
    AtMostZero(p - port, e);
    ZeroDifference(p, port);
    KeepsAllBits(p, e);
    if p == port {
      SelfAtMost(port, p);
    }
  }

  lemma BlockOfOne(port: bv16, p: bv16)
    ensures InBlock(port, 0, p) <==> p == port
  {
    AtMostZero(p - port, 0);
    ZeroDifference(p, port);
    if p == port {
      SelfAtMost(port, p);
    }
  }

  lemma WideBlock(port: bv16, e: bv16, p: bv16)
    requires port & (port - 1) == 0 && e & (e + 1) == 0 && e < port
    ensures p & !e == port <==> port <= p && p - port <= e
  {
  }

  /** Whether the device matches 16 bits `p` under a pattern and a mask. */
  predicate Hit(p: bv16, pattern: bv16, mask: bv16) {
    p & mask == pattern
  }

  /** An extent is zero, or a power of two less one that is smaller than its power-of-two port. */
  predicate AlignedExtent(port: bv16, e: bv16) {
    e == 0 || (port & (port - 1) == 0 && e & (e + 1) == 0 && e < port)
  }

  lemma ExtentAligned(port: bv16, range: bv16)
    ensures AlignedExtent(port, Extent(port, range))
  {
  }

  lemma AlignedBlock(port: bv16, e: bv16, p: bv16)
    requires AlignedExtent(port, e)
    ensures Hit(p, port, !e) <==> InBlock(port, e, p)
  {
    if e == 0 {
      SingleBlock(port, e, p);
    } else {
      WideBlock(port, e, p);
    }
  }

  /** The ports that port number and range describe: a block when they have the form for one, cut where it would be
      wider than its first port, and the port alone otherwise. */
  predicate Asked(port: bv16, range: bv16, p: bv16) {
    if IsPower(port as bv32) && IsPower((range as bv32) + 1) && range != 0 then
      InBlock(port, if range < port - 1 then range else port - 1, p)
    else p == port
  }

  lemma ExtentIs(port: bv16, range: bv16)
    ensures Extent(port, range)
         == if IsPower(port as bv32) && IsPower((range as bv32) + 1) && range != 0
            then (if range < port - 1 then range else port - 1) else 0
  {
  }

  lemma AskedIsBlock(port: bv16, range: bv16, p: bv16)
    ensures Asked(port, range, p) <==> InBlock(port, Extent(port, range), p)
  {
    ExtentIs(port, range);
    BlockOfOne(port, p);
  }

  /** A filter matches one contiguous block of ports: portnum .. portnum + min(range, portnum - 1)
      for a block, portnum alone otherwise. */
  lemma AcceptsExactly(port: bv16, range: bv16, p: bv16)
    ensures Accepts(port, range, p) <==> InBlock(port, Extent(port, range), p)
  {
    ExtentAligned(port, range);
    AlignedBlock(port, Extent(port, range), p);
  }

  /** The same with the ports written out. */
  lemma AcceptsAsked(port: bv16, range: bv16, p: bv16)
    ensures Accepts(port, range, p) <==> Asked(port, range, p)
  {
    AcceptsExactly(port, range, p);
    AskedIsBlock(port, range, p);
  }

  /** The block never runs past the last port. */
  lemma BlockDoesNotWrap(port: bv16, range: bv16)
    ensures Extent(port, range) <= 0xffff - port
  {
  }

  /** What the configuration header documents: the ports portnum .. portnum + range when all three
      conditions hold, and portnum alone when any fails. */
  predicate Documented(port: bv16, range: bv16, p: bv16) {
    InBlock(port, DocumentedExtent(port, range), p)
  }

  function DocumentedExtent(port: bv16, range: bv16): bv16 {
    if IsPower(port as bv32) && IsPower((range as bv32) + 1) && range < port then range else 0
  }

  /** The condition that the code leaves out: a block wider than its first port. */
  predicate Overwide(port: bv16, range: bv16) {
    IsPower(port as bv32) && IsPower((range as bv32) + 1) && range >= port && port > 1
  }

  lemma ExtentsAgree(port: bv16, range: bv16)
    ensures Overwide(port, range) ==> Extent(port, range) >= 1 && DocumentedExtent(port, range) == 0 && port < 0xffff
    ensures !Overwide(port, range) ==> Extent(port, range) == DocumentedExtent(port, range)
  {
  }

  lemma NextPort(port: bv16, e: bv16)
    requires port < 0xffff
    ensures InBlock(port, e, port + 1) <==> e >= 1
  {
  }

  /** The code keeps to its documentation exactly when the block is not wider than its first port. */
  lemma DocumentedIffNotOverwide(port: bv16, range: bv16)
    ensures (forall p :: Accepts(port, range, p) <==> Documented(port, range, p)) <==> !Overwide(port, range)
  {
    ExtentsAgree(port, range);
    forall p
      ensures Accepts(port, range, p) <==> InBlock(port, Extent(port, range), p)
    {
      AcceptsExactly(port, range, p);
    }
    if Overwide(port, range) {
      NextPort(port, Extent(port, range));
      NextPort(port, DocumentedExtent(port, range));
      assert Accepts(port, range, port + 1) && !Documented(port, range, port + 1);
    }
  }

  /** For example, 256 with range 1023 is documented to fall back to port 256 but matches 300. */
  lemma OverwideExample()
    ensures Accepts(256, 1023, 300) && !Documented(256, 1023, 300)
  {
  }
}
