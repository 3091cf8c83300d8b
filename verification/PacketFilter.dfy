/** The packet-filter compiler of `cy_lpa_wifi_pf_ol.c`: a filter description becomes a byte pattern
    and a bit mask, built in two buffers that all filters share. */
module PacketFilter {
  import opened PortMask

  const ETHTYPE_OFFSET: nat := 12
  const ETHER_TYPE_LEN: nat := 2
  const IPV4_LEN: nat := 20
  const UDP_LEN: nat := 8
  const PORT_FILTER_LEN: nat := 26
  const ETHER_TYPE_IP: bv16 := 0x0800
  const IP_PROTO_TCP: bv8 := 6
  const IP_PROTO_UDP: bv8 := 17
  const PROT_AT: nat := 9

  /** C enumerations; other values reach the default branches. */
  const PROTOCOL_UDP: int := 1
  const PORT_DEST: int := 1
  const PORT_SOURCE: int := 2

  datatype Feature =
    | PortNum(portnum: bv16, range: bv16, direction: int, proto: int)
    | EthType(ethType: bv16)
    | IpType(ipType: bv8)
    | UnknownFeature(code: int)

  const ACTIVE_SLEEP: bv32 := 1
  const ACTIVE_WAKE: bv32 := 2
  const ACTION_DISCARD: bv32 := 4

  /** `cy_pf_ol_cfg_t`. A configuration list is a sequence of these, without its terminator. */
  datatype Cfg = Cfg(feature: Feature, bits: bv32, id: int)

  datatype Rule = PositiveMatching | NegativeMatching

  /** `whd_packet_filter_t` as the driver keeps it: the bytes are copied when the filter is added. */
  datatype Filter = Filter(id: int, offset: nat, pattern: seq<bv8>, mask: seq<bv8>, rule: Rule)

  // ---------------------------------------------------------------- bytes of 16-bit fields

  function HiByte(v: bv16): bv8 { ((v >> 8) & 0xff) as bv8 }

  function LoByte(v: bv16): bv8 { (v & 0xff) as bv8 }

  /** The field whose network-order bytes are `hi`, `lo`. */
  function Join(hi: bv8, lo: bv8): bv16 {
    ((hi as bv16) << 8) | (lo as bv16)
  }

  lemma JoinOfParts(v: bv16)
    ensures Join(HiByte(v), LoByte(v)) == v
  {
  }

  lemma PartsOfJoin(hi: bv8, lo: bv8)
    ensures HiByte(Join(hi, lo)) == hi && LoByte(Join(hi, lo)) == lo
  {
  }

  /** The device's test on one byte. */
  predicate ByteHit(b: bv8, pattern: bv8, mask: bv8) {
    b & mask == pattern
  }

  lemma MaskedJoin(hi: bv8, lo: bv8, mask: bv16)
    ensures Join(hi, lo) & mask == Join(hi & HiByte(mask), lo & LoByte(mask))
  {
  }

  lemma JoinInjective(h0: bv8, l0: bv8, h1: bv8, l1: bv8)
    requires Join(h0, l0) == Join(h1, l1)
    ensures h0 == h1 && l0 == l1
  {
    PartsOfJoin(h0, l0);
    PartsOfJoin(h1, l1);
  }

  lemma BytesHitWord(hi: bv8, lo: bv8, pattern: bv16, mask: bv16)
    requires ByteHit(hi, HiByte(pattern), HiByte(mask)) && ByteHit(lo, LoByte(pattern), LoByte(mask))
    ensures Hit(Join(hi, lo), pattern, mask)
  {
    MaskedJoin(hi, lo, mask);
    JoinOfParts(pattern);
  }

  lemma WordHitsBytes(hi: bv8, lo: bv8, pattern: bv16, mask: bv16)
    requires Hit(Join(hi, lo), pattern, mask)
    ensures ByteHit(hi, HiByte(pattern), HiByte(mask)) && ByteHit(lo, LoByte(pattern), LoByte(mask))
  {
    MaskedJoin(hi, lo, mask);
    JoinOfParts(pattern);
    JoinInjective(hi & HiByte(mask), lo & LoByte(mask), HiByte(pattern), LoByte(pattern));
  }

  /** Matching a 16-bit field bytewise in network order is matching it whole. */
  lemma SplitHit(hi: bv8, lo: bv8, pattern: bv16, mask: bv16)
    ensures ByteHit(hi, HiByte(pattern), HiByte(mask)) && ByteHit(lo, LoByte(pattern), LoByte(mask))
            <==> Hit(Join(hi, lo), pattern, mask)
  {
    if Hit(Join(hi, lo), pattern, mask) {
      WordHitsBytes(hi, lo, pattern, mask);
    } else if ByteHit(hi, HiByte(pattern), HiByte(mask)) && ByteHit(lo, LoByte(pattern), LoByte(mask)) {
      BytesHitWord(hi, lo, pattern, mask);
    }
  }

  // ---------------------------------------------------------------- the compiled filter

  /** IP protocol number that a port filter asks for: anything but UDP means TCP. */
  function ProtocolOf(proto: int): bv8 {
    if proto == PROTOCOL_UDP then IP_PROTO_UDP else IP_PROTO_TCP
  }

  predicate UsesSource(direction: int) { direction != PORT_DEST }

  predicate UsesDest(direction: int) { direction != PORT_SOURCE }

  /** Bytes of the three header stretches that a filter covers: ethertype, IPv4 header, ports. */
  function Layout(etherType: bv16, prot: bv8, src: bv16, dst: bv16, i: nat): bv8 {
    if i == 0 then HiByte(etherType)
    else if i == 1 then LoByte(etherType)
    else if i == ETHER_TYPE_LEN + PROT_AT then prot
    else if i == ETHER_TYPE_LEN + IPV4_LEN then HiByte(src)
    else if i == ETHER_TYPE_LEN + IPV4_LEN + 1 then LoByte(src)
    else if i == ETHER_TYPE_LEN + IPV4_LEN + 2 then HiByte(dst)
    else if i == ETHER_TYPE_LEN + IPV4_LEN + 3 then LoByte(dst)
    else 0
  }

  function LayoutBytes(n: nat, etherType: bv16, prot: bv8, src: bv16, dst: bv16): (s: seq<bv8>)
    ensures |s| == n
  {
    seq(n, i requires 0 <= i < n => Layout(etherType, prot, src, dst, i))
  }

  function RuleOf(bits: bv32): Rule {
    if bits & ACTION_DISCARD != 0 then NegativeMatching else PositiveMatching
  }

  function PortMaskOf(f: Feature): bv16
    requires f.PortNum?
  {
    !Extent(f.portnum, f.range)
  }

  /** Pattern and mask of a port field, when the direction uses it. */
  function PortPattern(f: Feature, used: bool): bv16
    requires f.PortNum?
  {
    if used then f.portnum else 0
  }

  function PortFieldMask(f: Feature, used: bool): bv16
    requires f.PortNum?
  {
    if used then PortMaskOf(f) else 0
  }

  /** What a port filter asks of a port field. */
  predicate PortOk(f: Feature, used: bool, v: bv16)
    requires f.PortNum?
  {
    used ==> InBlock(f.portnum, Extent(f.portnum, f.range), v)
  }

  function Pattern(f: Feature): seq<bv8> {
    match f
    case PortNum(_, _, dir, proto) =>
      LayoutBytes(PORT_FILTER_LEN, ETHER_TYPE_IP, ProtocolOf(proto),
                  PortPattern(f, UsesSource(dir)), PortPattern(f, UsesDest(dir)))
    case EthType(t) => LayoutBytes(ETHER_TYPE_LEN, t, 0, 0, 0)
    case IpType(p) => LayoutBytes(ETHER_TYPE_LEN + IPV4_LEN, ETHER_TYPE_IP, p, 0, 0)
    case UnknownFeature(_) => []
  }

  function Mask(f: Feature): seq<bv8> {
    match f
    case PortNum(_, _, dir, _) =>
      LayoutBytes(PORT_FILTER_LEN, 0xffff, 0xff,
                  PortFieldMask(f, UsesSource(dir)), PortFieldMask(f, UsesDest(dir)))
    case EthType(_) => LayoutBytes(ETHER_TYPE_LEN, 0xffff, 0, 0, 0)
    case IpType(_) => LayoutBytes(ETHER_TYPE_LEN + IPV4_LEN, 0xffff, 0xff, 0, 0)
    case UnknownFeature(_) => []
  }

  /** What reaches the driver for a description: a function of that description alone. */
  function Compile(c: Cfg): Filter {
    Filter(c.id, ETHTYPE_OFFSET, Pattern(c.feature), Mask(c.feature), RuleOf(c.bits))
  }

  // ---------------------------------------------------------------- what a filter means

  /** The device's test: every masked byte from `offset` on equals the pattern. */
  predicate Matches(f: Filter, frame: seq<bv8>)
    requires |f.pattern| == |f.mask|
  {
    && f.offset + |f.mask| <= |frame|
    && forall i | 0 <= i < |f.mask| :: ByteHit(frame[f.offset + i], f.pattern[i], f.mask[i])
  }

  function EtherTypeOf(frame: seq<bv8>): bv16
    requires |frame| >= 14
  {
    Join(frame[12], frame[13])
  }

  predicate IsIpv4(frame: seq<bv8>) {
    |frame| >= 34 && EtherTypeOf(frame) == ETHER_TYPE_IP
  }

  /** Where the transport header starts, from the header length field. */
  function TransportAt(frame: seq<bv8>): nat
    requires |frame| >= 34
  {
    14 + 4 * (HeaderWords(frame) as int)
  }

  /** The header length field, in units of four bytes. */
  function HeaderWords(frame: seq<bv8>): bv8
    requires |frame| >= 34
  {
    frame[14] & 0x0f
  }

  /** The fragment-offset field. */
  function FragmentOffset(frame: seq<bv8>): bv16
    requires |frame| >= 34
  {
    Join(frame[20], frame[21]) & 0x1fff
  }

  /** The total-length field. */
  function TotalLength(frame: seq<bv8>): bv16
    requires |frame| >= 34
  {
    Join(frame[16], frame[17])
  }

  function Version(frame: seq<bv8>): bv8
    requires |frame| >= 34
  {
    frame[14] >> 4
  }

  /** What an IPv4 header says about itself and about where ports are: version, length in words, fragment offset and
      total length. */
  datatype Kind = Kind(version: bv8, words: bv8, offset: bv16, total: bv16)

  function KindOf(frame: seq<bv8>): Kind
    requires |frame| >= 34
  {
    Kind(Version(frame), HeaderWords(frame), FragmentOffset(frame), TotalLength(frame))
  }

  /** A header of IP version 4 of at least 20 bytes, in a packet that contains it. */
  predicate ValidHeader(k: Kind) {
    k.version == 4 && k.words >= 5 && k.total as int >= 4 * (k.words as int)
  }

  /** Ports follow the header, in an unfragmented packet or a first fragment that is long enough to hold them. */
  predicate HasPorts(k: Kind) {
    ValidHeader(k) && k.offset == 0 && k.total as int >= 4 * (k.words as int) + 4
  }

  /** Ports follow a header without options. */
  predicate Plain(k: Kind) {
    k.words == 5 && HasPorts(k)
  }

  predicate CarriesPorts(frame: seq<bv8>) {
    IsIpv4(frame) && HasPorts(KindOf(frame)) && TransportAt(frame) + 4 <= |frame|
  }

  function SourcePort(frame: seq<bv8>): bv16
    requires CarriesPorts(frame)
  {
    Join(frame[TransportAt(frame)], frame[TransportAt(frame) + 1])
  }

  function DestPort(frame: seq<bv8>): bv16
    requires CarriesPorts(frame)
  {
    Join(frame[TransportAt(frame) + 2], frame[TransportAt(frame) + 3])
  }

  /** The meaning of a description. */
  predicate Satisfies(f: Feature, frame: seq<bv8>) {
    match f
    case EthType(t) => |frame| >= 14 && EtherTypeOf(frame) == t
    case IpType(p) => IsIpv4(frame) && ValidHeader(KindOf(frame)) && frame[23] == p
    case PortNum(_, _, direction, proto) =>
      && CarriesPorts(frame)
      && frame[23] == (if proto == PROTOCOL_UDP then IP_PROTO_UDP else IP_PROTO_TCP)
      && (if direction == PORT_SOURCE then Asked(f.portnum, f.range, SourcePort(frame))
          else if direction == PORT_DEST then Asked(f.portnum, f.range, DestPort(frame))
          else Asked(f.portnum, f.range, SourcePort(frame)) && Asked(f.portnum, f.range, DestPort(frame)))
    case UnknownFeature(_) => true
  }

  /** The headers for which a filter means its description: any for an ethertype, valid ones for a protocol, plain
      ones for ports. */
  predicate Meant(f: Feature, k: Kind) {
    match f
    case EthType(_) => true
    case IpType(_) => ValidHeader(k)
    case PortNum(_, _, _, _) => Plain(k)
    case UnknownFeature(_) => true
  }

  /** The frame's IPv4 header, if it has one, is such a header. */
  predicate HeaderMeant(f: Feature, frame: seq<bv8>) {
    IsIpv4(frame) ==> Meant(f, KindOf(frame))
  }

  /** Byte-level matching of a layout, stretch by stretch. */
  predicate LayoutHit(n: nat, frame: seq<bv8>, et: bv16, etMask: bv16, prot: bv8, protMask: bv8,
                      src: bv16, srcMask: bv16, dst: bv16, dstMask: bv16)
    requires n in {ETHER_TYPE_LEN, ETHER_TYPE_LEN + IPV4_LEN, PORT_FILTER_LEN}
  {
    && ETHTYPE_OFFSET + n <= |frame|
    && Hit(Join(frame[12], frame[13]), et, etMask)
    && (n >= 22 ==> ByteHit(frame[23], prot, protMask))
    && (n == 26 ==> Hit(Join(frame[34], frame[35]), src, srcMask) && Hit(Join(frame[36], frame[37]), dst, dstMask))
  }

  /** The bytes that a layout pairs with byte `i` of the covered stretch. */
  predicate LayoutByteHit(frame: seq<bv8>, et: bv16, etMask: bv16, prot: bv8, protMask: bv8,
                          src: bv16, srcMask: bv16, dst: bv16, dstMask: bv16, i: nat)
    requires ETHTYPE_OFFSET + i < |frame|
  {
    ByteHit(frame[ETHTYPE_OFFSET + i], Layout(et, prot, src, dst, i), Layout(etMask, protMask, srcMask, dstMask, i))
  }

  lemma ZeroMaskHits(b: bv8)
    ensures ByteHit(b, 0, 0)
  {
  }

  lemma BytesMakeLayoutHit(n: nat, frame: seq<bv8>, et: bv16, etMask: bv16, prot: bv8, protMask: bv8,
                           src: bv16, srcMask: bv16, dst: bv16, dstMask: bv16)
    requires n in {ETHER_TYPE_LEN, ETHER_TYPE_LEN + IPV4_LEN, PORT_FILTER_LEN} && ETHTYPE_OFFSET + n <= |frame|
    requires forall i | 0 <= i < n :: LayoutByteHit(frame, et, etMask, prot, protMask, src, srcMask, dst, dstMask, i)
    ensures LayoutHit(n, frame, et, etMask, prot, protMask, src, srcMask, dst, dstMask)
  {
    assert LayoutByteHit(frame, et, etMask, prot, protMask, src, srcMask, dst, dstMask, 0);
    assert LayoutByteHit(frame, et, etMask, prot, protMask, src, srcMask, dst, dstMask, 1);
    SplitHit(frame[12], frame[13], et, etMask);
    if n >= 22 {
      assert LayoutByteHit(frame, et, etMask, prot, protMask, src, srcMask, dst, dstMask, 11);
    }
    if n == 26 {
      assert LayoutByteHit(frame, et, etMask, prot, protMask, src, srcMask, dst, dstMask, 22);
      assert LayoutByteHit(frame, et, etMask, prot, protMask, src, srcMask, dst, dstMask, 23);
      assert LayoutByteHit(frame, et, etMask, prot, protMask, src, srcMask, dst, dstMask, 24);
      assert LayoutByteHit(frame, et, etMask, prot, protMask, src, srcMask, dst, dstMask, 25);
      SplitHit(frame[34], frame[35], src, srcMask);
      SplitHit(frame[36], frame[37], dst, dstMask);
    }
  }

  lemma LayoutHitMakesByte(n: nat, frame: seq<bv8>, et: bv16, etMask: bv16, prot: bv8, protMask: bv8,
                           src: bv16, srcMask: bv16, dst: bv16, dstMask: bv16, i: nat)
    requires n in {ETHER_TYPE_LEN, ETHER_TYPE_LEN + IPV4_LEN, PORT_FILTER_LEN} && i < n
    requires LayoutHit(n, frame, et, etMask, prot, protMask, src, srcMask, dst, dstMask)
    ensures LayoutByteHit(frame, et, etMask, prot, protMask, src, srcMask, dst, dstMask, i)
  {
    if i <= 1 {
      WordHitsBytes(frame[12], frame[13], et, etMask);
    } else if i >= 22 {
      PortHitMakesByte(frame, et, etMask, prot, protMask, src, srcMask, dst, dstMask, i);
    } else if i != 11 {
      ZeroMaskHits(frame[ETHTYPE_OFFSET + i]);
    }
  }

  lemma PortHitMakesByte(frame: seq<bv8>, et: bv16, etMask: bv16, prot: bv8, protMask: bv8,
                         src: bv16, srcMask: bv16, dst: bv16, dstMask: bv16, i: nat)
    requires 22 <= i < 26 && |frame| >= 38
    requires Hit(Join(frame[34], frame[35]), src, srcMask) && Hit(Join(frame[36], frame[37]), dst, dstMask)
    ensures LayoutByteHit(frame, et, etMask, prot, protMask, src, srcMask, dst, dstMask, i)
  {
    if i <= 23 {
      WordHitsBytes(frame[34], frame[35], src, srcMask);
    } else {
      WordHitsBytes(frame[36], frame[37], dst, dstMask);
    }
  }

  lemma LayoutMatch(n: nat, frame: seq<bv8>, id: int, rule: Rule, et: bv16, etMask: bv16, prot: bv8, protMask: bv8,
                    src: bv16, srcMask: bv16, dst: bv16, dstMask: bv16)
    requires n in {ETHER_TYPE_LEN, ETHER_TYPE_LEN + IPV4_LEN, PORT_FILTER_LEN}
    ensures Matches(Filter(id, ETHTYPE_OFFSET, LayoutBytes(n, et, prot, src, dst),
                           LayoutBytes(n, etMask, protMask, srcMask, dstMask), rule), frame)
            <==> LayoutHit(n, frame, et, etMask, prot, protMask, src, srcMask, dst, dstMask)
  {
    var f := Filter(id, ETHTYPE_OFFSET, LayoutBytes(n, et, prot, src, dst),
                    LayoutBytes(n, etMask, protMask, srcMask, dstMask), rule);
    if Matches(f, frame) {
      forall i | 0 <= i < n
        ensures LayoutByteHit(frame, et, etMask, prot, protMask, src, srcMask, dst, dstMask, i)
      {
        assert ByteHit(frame[f.offset + i], f.pattern[i], f.mask[i]);
      }
      BytesMakeLayoutHit(n, frame, et, etMask, prot, protMask, src, srcMask, dst, dstMask);
    } else if LayoutHit(n, frame, et, etMask, prot, protMask, src, srcMask, dst, dstMask) {
      forall i | 0 <= i < n
        ensures ByteHit(frame[f.offset + i], f.pattern[i], f.mask[i])
      {
        LayoutHitMakesByte(n, frame, et, etMask, prot, protMask, src, srcMask, dst, dstMask, i);
      }
    }
  }

  // ---------------------------------------------------------------- meaning is preserved

  lemma AllOnes(v: bv16, b: bv8)
    ensures v & 0xffff == v && b & 0xff == b
    ensures v & 0 == 0
  {
  }

  lemma WholeFieldHit(v: bv16, t: bv16)
    ensures Hit(v, t, 0xffff) <==> v == t
  {
    AllOnes(v, 0);
  }

  lemma WholeByteHit(b: bv8, t: bv8)
    ensures ByteHit(b, t, 0xff) <==> b == t
  {
    AllOnes(0, b);
  }

  lemma UnusedFieldHit(v: bv16)
    ensures Hit(v, 0, 0)
  {
    AllOnes(v, 0);
  }

  lemma PortFieldHit(f: Feature, used: bool, v: bv16)
    requires f.PortNum?
    ensures Hit(v, PortPattern(f, used), PortFieldMask(f, used)) <==> PortOk(f, used, v)
  {
    if used {
      AcceptsExactly(f.portnum, f.range, v);
    } else {
      UnusedFieldHit(v);
    }
  }

  predicate PortLayoutHit(f: Feature, frame: seq<bv8>)
    requires f.PortNum?
  {
    LayoutHit(PORT_FILTER_LEN, frame, ETHER_TYPE_IP, 0xffff, ProtocolOf(f.proto), 0xff,
              PortPattern(f, UsesSource(f.direction)), PortFieldMask(f, UsesSource(f.direction)),
              PortPattern(f, UsesDest(f.direction)), PortFieldMask(f, UsesDest(f.direction)))
  }

  /** What a port filter tests, on any frame at all: fixed offsets. */
  predicate AtFixedOffsets(f: Feature, frame: seq<bv8>)
    requires f.PortNum?
  {
    && |frame| >= 38 && EtherTypeOf(frame) == ETHER_TYPE_IP && frame[23] == ProtocolOf(f.proto)
    && PortOk(f, UsesSource(f.direction), Join(frame[34], frame[35]))
    && PortOk(f, UsesDest(f.direction), Join(frame[36], frame[37]))
  }

  lemma PortLayoutMeaning(f: Feature, frame: seq<bv8>)
    requires f.PortNum?
    ensures PortLayoutHit(f, frame) <==> AtFixedOffsets(f, frame)
  {
    if |frame| >= 38 {
      WholeFieldHit(EtherTypeOf(frame), ETHER_TYPE_IP);
      WholeByteHit(frame[23], ProtocolOf(f.proto));
      PortFieldHit(f, UsesSource(f.direction), Join(frame[34], frame[35]));
      PortFieldHit(f, UsesDest(f.direction), Join(frame[36], frame[37]));
    }
  }

  lemma PortFilterMatches(c: Cfg, frame: seq<bv8>)
    requires c.feature.PortNum?
    ensures Matches(Compile(c), frame) <==> AtFixedOffsets(c.feature, frame)
  {
    var f := c.feature;
    LayoutMatch(PORT_FILTER_LEN, frame, c.id, RuleOf(c.bits), ETHER_TYPE_IP, 0xffff, ProtocolOf(f.proto), 0xff,
                PortPattern(f, UsesSource(f.direction)), PortFieldMask(f, UsesSource(f.direction)),
                PortPattern(f, UsesDest(f.direction)), PortFieldMask(f, UsesDest(f.direction)));
    PortLayoutMeaning(f, frame);
  }

  lemma PortsAsked(f: Feature, src: bv16, dst: bv16)
    requires f.PortNum?
    ensures PortOk(f, UsesSource(f.direction), src) && PortOk(f, UsesDest(f.direction), dst)
            <==> if f.direction == PORT_SOURCE then Asked(f.portnum, f.range, src)
                 else if f.direction == PORT_DEST then Asked(f.portnum, f.range, dst)
                 else Asked(f.portnum, f.range, src) && Asked(f.portnum, f.range, dst)
  {
    PortOkIsAsked(f, src);
    PortOkIsAsked(f, dst);
  }

  lemma PortOkIsAsked(f: Feature, v: bv16)
    requires f.PortNum?
    ensures PortOk(f, true, v) <==> Asked(f.portnum, f.range, v)
    ensures PortOk(f, false, v)
  {
    AskedIsBlock(f.portnum, f.range, v);
  }

  lemma TransportAfterPlainHeader(frame: seq<bv8>)
    requires |frame| >= 34 && HeaderWords(frame) == 5
    ensures TransportAt(frame) == 34
  {
  }

  lemma ProtocolFilterMatches(c: Cfg, frame: seq<bv8>)
    requires c.feature.IpType?
    ensures Matches(Compile(c), frame) <==> IsIpv4(frame) && frame[23] == c.feature.ipType
  {
    LayoutMatch(ETHER_TYPE_LEN + IPV4_LEN, frame, c.id, RuleOf(c.bits), ETHER_TYPE_IP, 0xffff, c.feature.ipType, 0xff,
                0, 0, 0, 0);
    if |frame| >= 34 {
      WholeFieldHit(EtherTypeOf(frame), ETHER_TYPE_IP);
      WholeByteHit(frame[23], c.feature.ipType);
    }
  }

  /** The compiler preserves meaning: on every frame whose IPv4 header is plain, or merely valid for a protocol
      filter, or anything for an ethertype filter, the device's bytewise test under the compiled pattern and mask
      decides exactly the description. */
  lemma CompilationPreservesMeaning(c: Cfg, frame: seq<bv8>)
    requires HeaderMeant(c.feature, frame)
    requires !c.feature.UnknownFeature?
    ensures Matches(Compile(c), frame) <==> Satisfies(c.feature, frame)
  {
    match c.feature
    case EthType(t) =>
      LayoutMatch(ETHER_TYPE_LEN, frame, c.id, RuleOf(c.bits), t, 0xffff, 0, 0, 0, 0, 0, 0);
      if |frame| >= 14 {
        WholeFieldHit(EtherTypeOf(frame), t);
      }
    case IpType(p) =>
      ProtocolFilterMatches(c, frame);
    case PortNum(port, range, dir, proto) =>
      PortFilterMatches(c, frame);
      if IsIpv4(frame) {
        TransportAfterPlainHeader(frame);
        if |frame| >= 38 {
          PortsAsked(c.feature, Join(frame[34], frame[35]), Join(frame[36], frame[37]));
        }
      }
  }

  // ---------------------------------------------------------------- keep or discard

  /** What the device does with a frame under one filter: positive matching passes up what matches, negative matching
      drops it. */
  predicate PassedUp(f: Filter, frame: seq<bv8>)
    requires |f.pattern| == |f.mask|
  {
    match f.rule
    case PositiveMatching => Matches(f, frame)
    case NegativeMatching => !Matches(f, frame)
  }

  /** A description that discards drops the frames it describes and lets the others pass; one that keeps passes up the
      frames it describes. */
  lemma ActionMeans(c: Cfg, frame: seq<bv8>)
    requires HeaderMeant(c.feature, frame) && !c.feature.UnknownFeature?
    ensures PassedUp(Compile(c), frame) <==> (Satisfies(c.feature, frame) <==> c.bits & ACTION_DISCARD == 0)
  {
    CompilationPreservesMeaning(c, frame);
  }

  /** A port outside a filter's block. */
  function OtherPort(portnum: bv16): bv16 {
    if portnum == 0 then 1 else 0
  }

  lemma FirstInBlock(portnum: bv16, e: bv16)
    ensures InBlock(portnum, e, portnum)
  {
  }

  lemma OtherPortOutside(portnum: bv16, range: bv16)
    ensures !InBlock(portnum, Extent(portnum, range), OtherPort(portnum))
  {
  }

  // ---------------------------------------------------------------- frames of every kind

  /** The fields fit their widths. */
  predicate IsKind(k: Kind) {
    k.version <= 15 && k.words <= 15 && k.offset <= 0x1fff
  }

  /** The frames with ethertype IPv4 of a given kind. */
  predicate OfKind(frame: seq<bv8>, k: Kind) {
    IsIpv4(frame) && KindOf(frame) == k
  }

  /** Version and header length share a byte. */
  function FirstByte(k: Kind): bv8 {
    (k.version << 4) | k.words
  }

  /** A frame of a given kind and protocol, with port `here` where ports follow a plain header and port `first`
      everywhere behind them. */
  function Witness(k: Kind, prot: bv8, here: bv16, first: bv16): (frame: seq<bv8>)
    ensures |frame| == 80
  {
    seq(80, i requires 0 <= i < 80 =>
      if i == 12 then 0x08
      else if i == 14 then FirstByte(k)
      else if i == 16 then HiByte(k.total)
      else if i == 17 then LoByte(k.total)
      else if i == 20 then HiByte(k.offset)
      else if i == 21 then LoByte(k.offset)
      else if i == 23 then prot
      else if i < 34 then 0
      else if i < 38 then (if i % 2 == 0 then HiByte(here) else LoByte(here))
      else (if i % 2 == 0 then HiByte(first) else LoByte(first)))
  }

  lemma FieldBits(k: Kind)
    requires IsKind(k)
    ensures FirstByte(k) & 0x0f == k.words && FirstByte(k) >> 4 == k.version
    ensures k.offset & 0x1fff == k.offset
  {
  }

  lemma ReadsKind(frame: seq<bv8>, k: Kind, b: bv8)
    requires |frame| >= 34 && Join(frame[12], frame[13]) == ETHER_TYPE_IP
    requires frame[14] == b && b & 0x0f == k.words && b >> 4 == k.version
    requires Join(frame[16], frame[17]) == k.total
    requires Join(frame[20], frame[21]) == k.offset && k.offset & 0x1fff == k.offset
    ensures OfKind(frame, k)
  {
  }

  lemma EtherTypeBytes()
    ensures Join(0x08, 0) == ETHER_TYPE_IP
  {
  }

  lemma WitnessKind(k: Kind, prot: bv8, here: bv16, first: bv16)
    requires IsKind(k)
    ensures OfKind(Witness(k, prot, here, first), k)
  {
    EtherTypeBytes();
    FieldBits(k);
    JoinOfParts(k.offset);
    JoinOfParts(k.total);
    ReadsKind(Witness(k, prot, here, first), k, FirstByte(k));
  }

  lemma WitnessHere(k: Kind, prot: bv8, here: bv16, first: bv16)
    ensures var frame := Witness(k, prot, here, first);
            Join(frame[34], frame[35]) == here && Join(frame[36], frame[37]) == here
            && frame[23] == prot && EtherTypeOf(frame) == ETHER_TYPE_IP
  {
    var frame := Witness(k, prot, here, first);
    JoinOfParts(here);
    EtherTypeBytes();
  }

  lemma WitnessBehind(k: Kind, prot: bv8, here: bv16, first: bv16, at: nat)
    requires 38 <= at <= 76 && at % 2 == 0
    ensures var frame := Witness(k, prot, here, first); Join(frame[at], frame[at + 1]) == first
  {
    JoinOfParts(first);
  }

  lemma TransportBehind(frame: seq<bv8>, words: bv8)
    requires |frame| >= 34 && HeaderWords(frame) == words && 6 <= words <= 15
    ensures 38 <= TransportAt(frame) <= 74 && TransportAt(frame) % 2 == 0
  {
  }

  lemma WitnessPorts(k: Kind, prot: bv8, here: bv16, first: bv16)
    requires IsKind(k) && HasPorts(k) && k.words >= 6
    ensures var frame := Witness(k, prot, here, first);
            CarriesPorts(frame) && SourcePort(frame) == first && DestPort(frame) == first
  {
    var frame := Witness(k, prot, here, first);
    WitnessKind(k, prot, here, first);
    TransportBehind(frame, k.words);
    WitnessBehind(k, prot, here, first, TransportAt(frame));
    WitnessBehind(k, prot, here, first, TransportAt(frame) + 2);
  }

  lemma FirstPortSatisfies(f: Feature, frame: seq<bv8>)
    requires f.PortNum? && CarriesPorts(frame) && frame[23] == ProtocolOf(f.proto)
    requires SourcePort(frame) == f.portnum && DestPort(frame) == f.portnum
    ensures Satisfies(f, frame)
  {
    FirstInBlock(f.portnum, Extent(f.portnum, f.range));
    AskedIsBlock(f.portnum, f.range, f.portnum);
  }

  lemma OtherPortMissed(c: Cfg, frame: seq<bv8>)
    requires c.feature.PortNum? && |frame| >= 38
    requires Join(frame[34], frame[35]) == OtherPort(c.feature.portnum) == Join(frame[36], frame[37])
    ensures !Matches(Compile(c), frame)
  {
    OtherPortOutside(c.feature.portnum, c.feature.range);
    PortFilterMatches(c, frame);
  }

  /** Behind a longer header a port filter misses a frame from and to its own first port. */
  lemma OptionsMissed(c: Cfg, k: Kind, frame: seq<bv8>)
    requires c.feature.PortNum? && IsKind(k) && HasPorts(k) && k.words >= 6
    requires frame == Witness(k, ProtocolOf(c.feature.proto), OtherPort(c.feature.portnum), c.feature.portnum)
    ensures OfKind(frame, k) && Satisfies(c.feature, frame) && !Matches(Compile(c), frame)
  {
    var f := c.feature;
    var prot, here := ProtocolOf(f.proto), OtherPort(f.portnum);
    WitnessKind(k, prot, here, f.portnum);
    WitnessHere(k, prot, here, f.portnum);
    WitnessPorts(k, prot, here, f.portnum);
    FirstPortSatisfies(f, frame);
    OtherPortMissed(c, frame);
  }

  /** In a later fragment, a packet too short for ports, or behind something that is no IPv4 header, a port filter takes
      payload or padding for ports. */
  lemma PayloadMatched(c: Cfg, k: Kind, frame: seq<bv8>)
    requires c.feature.PortNum? && IsKind(k) && !HasPorts(k)
    requires frame == Witness(k, ProtocolOf(c.feature.proto), c.feature.portnum, c.feature.portnum)
    ensures OfKind(frame, k) && Matches(Compile(c), frame) && !Satisfies(c.feature, frame)
  {
    var f := c.feature;
    WitnessKind(k, ProtocolOf(f.proto), f.portnum, f.portnum);
    WitnessHere(k, ProtocolOf(f.proto), f.portnum, f.portnum);
    FirstInBlock(f.portnum, Extent(f.portnum, f.range));
    PortFilterMatches(c, frame);
  }

  /** Where the ethertype announces a header and there is no valid one, a protocol filter takes its tenth byte for a
      protocol. */
  lemma InvalidMatched(c: Cfg, k: Kind, frame: seq<bv8>)
    requires c.feature.IpType? && IsKind(k) && !ValidHeader(k)
    requires frame == Witness(k, c.feature.ipType, 0, 0)
    ensures OfKind(frame, k) && Matches(Compile(c), frame) && !Satisfies(c.feature, frame)
  {
    WitnessKind(k, c.feature.ipType, 0, 0);
    WitnessHere(k, c.feature.ipType, 0, 0);
    ProtocolFilterMatches(c, frame);
  }

  ghost predicate ExactOn(c: Cfg, k: Kind) {
    forall frame | OfKind(frame, k) :: Matches(Compile(c), frame) <==> Satisfies(c.feature, frame)
  }

  /** The exact condition, for frames of every kind: a filter means its description on all frames with a given
      version, header length, fragment offset and total length exactly when it is an ethertype filter, or a protocol
      filter and they are those of a valid header, or a port filter and they are those of a plain one. */
  lemma ExactIffPlain(c: Cfg, k: Kind)
    requires !c.feature.UnknownFeature? && IsKind(k)
    ensures ExactOn(c, k) <==> Meant(c.feature, k)
  {
    var f := c.feature;
    if Meant(f, k) {
      forall frame | OfKind(frame, k)
        ensures Matches(Compile(c), frame) <==> Satisfies(f, frame)
      {
        CompilationPreservesMeaning(c, frame);
      }
    } else if f.IpType? {
      InvalidMatched(c, k, Witness(k, f.ipType, 0, 0));
    } else if HasPorts(k) {
      LongHeader(k);
      OptionsMissed(c, k, Witness(k, ProtocolOf(f.proto), OtherPort(f.portnum), f.portnum));
    } else {
      PayloadMatched(c, k, Witness(k, ProtocolOf(f.proto), f.portnum, f.portnum));
    }
  }

  lemma LongHeader(k: Kind)
    requires HasPorts(k) && !Plain(k)
    ensures k.words >= 6
  {
  }
}
