/** A receiving host, written from the standards: it parses a frame, verifies every checksum
    against the reference definition and hands up the fields it found. It shares header lengths and
    protocol numbers with the senders, and none of their code.
    IPv4: section 3.1 of RFC 791. TCP: section 3.1 of RFC 9293. UDP: RFC 768. */
module Receiver {
  import opened Wrappers
  import opened Words
  import opened Checksum
  import opened LpaCommon
  import opened Frames

  datatype Ipv4Packet = Ipv4Packet(ethDst: Mac, ethSrc: Mac, src: Addr, dst: Addr, tos: u8, id: u16, flags: u8,
                                   ttl: u8, prot: u8, payload: seq<u8>)

  datatype Segment = Segment(ip: Ipv4Packet, srcPort: u16, dstPort: u16, seqNum: u32, ackNum: u32,
                             flags: u8, window: u16, urgent: u16, data: seq<u8>)

  datatype Datagram = Datagram(ip: Ipv4Packet, srcPort: u16, dstPort: u16, checksummed: bool, data: seq<u8>)

  /** Accept a frame as a whole IPv4 packet: ethertype, version, header length, total length, no fragment, header
      checksum. */
  function ReceiveIpv4(frame: seq<u8>): Option<Ipv4Packet> {
    if |frame| < ETHER_LEN + IPV4_LEN || frame[12..14] != [0x08, 0x00] then None
    else
      var ip := frame[ETHER_LEN..];
      var hlen := 4 * (ip[0] % 16);
      var total := FromBe16(ip[2..4]);
      if ip[0] / 16 != 4 || hlen < IPV4_LEN || total < hlen || total > |ip| ||
         ip[6] % 0x40 != 0 || ip[7] != 0 || !Verifies(ip[..hlen]) then None
      else Some(Ipv4Packet(frame[..6], frame[6..12], ip[12..16], ip[16..20], ip[1], FromBe16(ip[4..6]), ip[6] / 0x20,
                           ip[8], ip[9], ip[hlen..total]))
  }

  /** What a TCP or UDP checksum covers in front of the segment: addresses, zero, protocol and segment length, high
      byte first. */
  function Covered(src: Addr, dst: Addr, prot: u8, size: u16): (s: seq<u8>)
    ensures |s| == 12
  {
    src + dst + [0, prot, size / 0x100, size % 0x100]
  }

  /** Accept an IPv4 packet as a TCP segment. */
  function ParseTcp(ip: Ipv4Packet): Option<Segment> {
    var tcp := ip.payload;
    if ip.prot != IP_PROTO_TCP || !(TCP_LEN <= |tcp| <= ONES) then None
    else
      var hlen := 4 * (tcp[12] / 16);
      if hlen < TCP_LEN || hlen > |tcp| || !Verifies(Covered(ip.src, ip.dst, IP_PROTO_TCP, |tcp|) + tcp) then None
      else Some(Segment(ip, FromBe16(tcp[0..2]), FromBe16(tcp[2..4]), FromBe32(tcp[4..8]), FromBe32(tcp[8..12]),
                        tcp[13], FromBe16(tcp[14..16]), FromBe16(tcp[18..20]), tcp[hlen..]))
  }

  /** Accept a frame as a TCP segment. */
  function ReceiveTcp(frame: seq<u8>): Option<Segment> {
    var r := ReceiveIpv4(frame);
    if r.None? then None else ParseTcp(r.value)
  }

  /** Accept an IPv4 packet as a UDP datagram. A zero checksum field means that the sender made none. */
  function ParseUdp(ip: Ipv4Packet): Option<Datagram> {
    var udp := ip.payload;
    if ip.prot != IP_PROTO_UDP || !(UDP_LEN <= |udp| <= ONES) then None
    else
      var none := udp[6..8] == [0, 0];
      if FromBe16(udp[4..6]) != |udp| ||
         !(none || Verifies(Covered(ip.src, ip.dst, IP_PROTO_UDP, |udp|) + udp)) then None
      else Some(Datagram(ip, FromBe16(udp[0..2]), FromBe16(udp[2..4]), !none, udp[8..]))
  }

  /** Accept a frame as a UDP datagram. */
  function ReceiveUdp(frame: seq<u8>): Option<Datagram> {
    var r := ReceiveIpv4(frame);
    if r.None? then None else ParseUdp(r.value)
  }

  // ---------------------------------------------------------------- a correct sender is accepted

  /** The pseudo-header that the sender fills in is what the receiver expects. */
  lemma PseudoIsCovered(src: Addr, dst: Addr, prot: u8, size: u16)
    ensures PseudoHeader(src, dst, prot, size) == Covered(src, dst, prot, size)
  {
  }

  lemma {:induction false} SplitAround(prefix: seq<u8>, s: seq<u8>, at: nat)
    requires |prefix| % 2 == 0 && at % 2 == 0 && at + 2 <= |s|
    ensures LeSum(prefix + s) == LeSum(prefix) + LeSum(s[..at]) + Word(s[at + 1], s[at]) + LeSum(s[at + 2..])
    ensures BeSum(prefix + s) == BeSum(prefix) + BeSum(s[..at]) + Word(s[at], s[at + 1]) + BeSum(s[at + 2..])
  {
    SumsAppend(prefix, s);
    SumsAppend(s[..at], s[at..]);
    assert s == s[..at] + s[at..];
    assert s[at..][2..] == s[at + 2..];
  }

  lemma FieldWord(s: seq<u8>, at: nat, v: u16)
    requires at + 2 <= |s|
    ensures s[at..at + 2] == Le16(v) ==> Word(s[at + 1], s[at]) == v
    ensures s[at..at + 2] == Be16(v) ==> Word(s[at], s[at + 1]) == v
  {
    var f := s[at..at + 2];
    assert f[0] == s[at] && f[1] == s[at + 1];
    PartsWord(v);
  }

  lemma {:induction false} SkippingNoWrap(prefix: seq<u8>, s: seq<u8>, at: nat)
    requires at + 2 <= |s| && |prefix| + |s| <= ONES
    ensures SkippingOf(Wrap32(LeSum(prefix)), s, at) == ONES - Canon(LeSum(prefix) + LeSum(s[..at]) + LeSum(s[at + 2..]))
  {
    SumsBounded(prefix);
    SumsBounded(s[..at]);
    SumsBounded(s[at + 2..]);
  }

  /** A checksum made by skipping its field and stored natively verifies, together with whatever
      `prefix` went into the partial sum. */
  lemma {:induction false} NativeFieldVerifies(prefix: seq<u8>, s: seq<u8>, at: nat, ck: u16)
    requires |prefix| % 2 == 0 && at % 2 == 0 && at + 2 <= |s| && |prefix| + |s| <= ONES
    requires ck == SkippingOf(Wrap32(LeSum(prefix)), s, at)
    requires Word(s[at + 1], s[at]) == ck
    ensures Verifies(prefix + s)
  {
    var others := LeSum(prefix) + LeSum(s[..at]) + LeSum(s[at + 2..]);
    SkippingNoWrap(prefix, s, at);
    SplitAround(prefix, s, at);
    ComplementCompletes(others, ck);
    VerifiesEitherOrder(prefix + s);
  }

  /** `ck` is the complement of the sum of the other words, with 0xffff allowed in place of zero. */
  predicate NetworkField(others: nat, ck: u16) {
    ck == ONES - Canon(others) || (Canon(others) == ONES && ck == ONES)
  }

  lemma NetworkFieldCompletes(others: nat, ck: u16)
    requires NetworkField(others, ck)
    ensures Canon(others + ck) == ONES
  {
    EitherZeroCompletes(others, ck);
  }

  /** The same for a network-order store, with 0xffff allowed in place of zero. */
  lemma {:induction false} NetworkFieldVerifies(prefix: seq<u8>, s: seq<u8>, at: nat, ck: u16)
    requires |prefix| % 2 == 0 && at % 2 == 0 && at + 2 <= |s|
    requires NetworkField(BeSum(prefix) + BeSum(s[..at]) + BeSum(s[at + 2..]), ck)
    requires Word(s[at], s[at + 1]) == ck
    ensures Verifies(prefix + s)
  {
    var others := BeSum(prefix) + BeSum(s[..at]) + BeSum(s[at + 2..]);
    SplitAround(prefix, s, at);
    assert BeSum(prefix + s) == others + ck;
    NetworkFieldCompletes(others, ck);
    OnesSumIsCanon(prefix + s);
  }

  /** Completing the zeroed header `z` with its checksum gives a header that verifies. */
  lemma {:induction false} CompletedVerifies(prefix: seq<u8>, z: seq<u8>, at: nat, ck: u16)
    requires |prefix| % 2 == 0 && at % 2 == 0 && at + 2 <= |z| && |prefix| + |z| <= ONES
    requires ck == SkippingOf(Wrap32(LeSum(prefix)), z, at)
    ensures Verifies(prefix + (z[..at] + Le16(ck) + z[at + 2..]))
  {
    var h := z[..at] + Le16(ck) + z[at + 2..];
    assert h[..at] == z[..at] && h[at + 2..] == z[at + 2..] && h[at..at + 2] == Le16(ck);
    FieldWord(h, at, ck);
    NativeFieldVerifies(prefix, h, at, ck);
  }

  lemma {:induction false} Ipv4CheckedVerifies(src: Addr, dst: Addr, totLen: u16, id: u16, ttl: u8, prot: u8)
    ensures Verifies(Ipv4Checked(src, dst, totLen, id, ttl, prot))
  {
    var ck := Ipv4Cksum(src, dst, totLen, id, ttl, prot);
    CompletedVerifies([], Ipv4Header(src, dst, totLen, id, ttl, prot, 0), IPV4_CKSUM_OFFSET, ck);
    Ipv4CksumField(src, dst, totLen, id, ttl, prot, ck);
    assert [] + Ipv4Checked(src, dst, totLen, id, ttl, prot) == Ipv4Checked(src, dst, totLen, id, ttl, prot);
  }

  /** A frame made of an Ethernet header, a checked IPv4 header and a payload of the announced
      length is accepted, and every field arrives. */
  lemma {:induction false} FrameAccepted(ethDst: Mac, ethSrc: Mac, src: Addr, dst: Addr, id: u16, ttl: u8, prot: u8, payload: seq<u8>)
    requires IPV4_LEN + |payload| <= ONES
    ensures var frame := EtherHeader(ethDst, ethSrc) + Ipv4Checked(src, dst, IPV4_LEN + |payload|, id, ttl, prot) + payload;
            ReceiveIpv4(frame) == Some(Ipv4Packet(ethDst, ethSrc, src, dst, 0, id, 0, ttl, prot, payload))
  {
    var total := IPV4_LEN + |payload|;
    var h := Ipv4Checked(src, dst, total, id, ttl, prot);
    var frame := EtherHeader(ethDst, ethSrc) + h + payload;
    var ip := frame[ETHER_LEN..];
    assert ip == h + payload;
    assert ip[..IPV4_LEN] == h;
    Ipv4CheckedVerifies(src, dst, total, id, ttl, prot);
    assert ip[0] == 0x45 && ip[1] == 0 && ip[2..4] == Be16(total) && ip[4..6] == Be16(id);
    assert ip[6] == 0 && ip[7] == 0 && ip[8] == ttl && ip[9] == prot;
    Be16RoundTrip(total);
    Be16RoundTrip(id);
    assert ip[12..16] == src && ip[16..20] == dst && ip[20..total] == payload;
    assert frame[..6] == ethDst && frame[6..12] == ethSrc && frame[12..14] == [0x08, 0x00];
  }
}
