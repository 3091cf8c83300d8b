/** The NAT keepalive packet of `cy_lpa_wifi_nko_ol.c`: payload clamp, `cylpa_nko_prep_packet` and
    `cylpa_configure_nat_keepalive`. */
module NatKeepalive {
  import opened Wrappers
  import opened Words
  import opened Checksum
  import opened LpaCommon
  import opened Frames
  import opened Receiver

  const MAX_PAYLOAD: int := 127
  const FIXED_LEN: nat := ETHER_LEN + IPV4_LEN + UDP_LEN
  const MAX_LEN: nat := FIXED_LEN + MAX_PAYLOAD
  const NKO_ERROR: int := 0xffee
  const RESULT_OK: int := 0
  const TTL: u8 := 225

  type Payload = s: seq<u8> | |s| <= MAX_PAYLOAD witness []

  /** `nat_keepalive_t`; `payload` is the used part of its payload buffer. */
  datatype Details = Details(srcMac: Mac, dstMac: Mac, srcIp: u32, dstIp: u32,
                             srcPort: u16, dstPort: u16, payload: Payload)

  // ---------------------------------------------------------------- the bytes

  function UdpDatagram(d: Details, cksum: u16): (s: seq<u8>)
    ensures |s| == UDP_LEN + |d.payload|
  {
    (Be16(d.srcPort) + Be16(d.dstPort)) + Be16(UDP_LEN + |d.payload|) + Be16(cksum) + d.payload
  }

  function Addresses(d: Details): seq<u8> {
    Le32(d.srcIp) + Le32(d.dstIp)
  }

  function UdpCksumOfDetails(d: Details): u16 {
    UdpCksumOf(Addresses(d), UdpDatagram(d, 0))
  }

  function IpPart(d: Details): seq<u8> {
    Ipv4Checked(Le32(d.srcIp), Le32(d.dstIp), IPV4_LEN + UDP_LEN + |d.payload|, 1, TTL, IP_PROTO_UDP)
  }

  /** The keepalive frame. */
  function Packet(d: Details): (s: seq<u8>)
    ensures |s| == FIXED_LEN + |d.payload|
  {
    EtherHeader(d.dstMac, d.srcMac) + IpPart(d) + UdpDatagram(d, UdpCksumOfDetails(d))
  }

  lemma UdpCksumField(d: Details, ck: u16)
    ensures var u := UdpDatagram(d, 0);
            u[..UDP_CKSUM_OFFSET] + Be16(ck) + u[UDP_CKSUM_OFFSET + 2..] == UdpDatagram(d, ck)
  {
    var front := (Be16(d.srcPort) + Be16(d.dstPort)) + Be16(UDP_LEN + |d.payload|);
    assert |front| == UDP_CKSUM_OFFSET;
    assert UdpDatagram(d, 0) == front + Be16(0) + d.payload;
  }

  method WriteUdp(d: Details, buf: array<u8>, udp: nat)
    requires udp + UDP_LEN + |d.payload| <= buf.Length
    modifies buf
    ensures Slice(buf, udp, UDP_LEN + |d.payload|) == UdpDatagram(d, UdpCksumOfDetails(d))
    ensures forall i | 0 <= i < udp || udp + UDP_LEN + |d.payload| <= i < buf.Length :: buf[i] == old(buf[i])
  {
    var length := UDP_LEN + |d.payload|;
    ghost var done := Be16(d.srcPort) + Be16(d.dstPort);
    Append(buf, udp, [], udp, Be16(d.srcPort) + Be16(d.dstPort));
    Append(buf, udp, done, udp + 4, Be16(length));
    done := done + Be16(length);
    Append(buf, udp, done, udp + 6, Be16(0));
    done := done + Be16(0);
    Append(buf, udp, done, udp + 8, d.payload);
    // the two address fields are adjacent in the record
    var addrs := new u8[8];
    Append(addrs, 0, [], 0, Le32(d.srcIp));
    Append(addrs, 0, Le32(d.srcIp), 4, Le32(d.dstIp));
    var ck := UdpCksum(length, addrs, buf, udp);
    UdpCksumField(d, ck);
    Patch(buf, udp, length, UDP_CKSUM_OFFSET, Be16(ck));
  }

  method PrepPacket(d: Details, buf: array?<u8>) returns (result: int)
    requires buf != null ==> buf.Length >= MAX_LEN
    modifies if buf != null then {buf} else {}
    ensures buf == null ==> result == NKO_ERROR
    ensures buf != null ==>
              && result == RESULT_OK
              && Slice(buf, 0, FIXED_LEN + |d.payload|) == Packet(d)
              && buf[FIXED_LEN + |d.payload|..] == old(buf[FIXED_LEN + |d.payload|..])
  {
    if buf == null {
      return NKO_ERROR;
    }
    ghost var u := UdpDatagram(d, UdpCksumOfDetails(d));
    StoreEthernet(buf, 0, d.dstMac, d.srcMac);
    WriteUdp(d, buf, ETHER_LEN + IPV4_LEN);
    WriteIpv4(buf, ETHER_LEN, Le32(d.srcIp), Le32(d.dstIp), IPV4_LEN + UDP_LEN + |d.payload|, 1, TTL, IP_PROTO_UDP);
    assert Slice(buf, 0, ETHER_LEN) == EtherHeader(d.dstMac, d.srcMac);
    assert Slice(buf, ETHER_LEN + IPV4_LEN, UDP_LEN + |d.payload|) == u;
    ThreeSlices(buf, 0, ETHER_LEN, IPV4_LEN, UDP_LEN + |d.payload|);
    result := RESULT_OK;
  }

  // ---------------------------------------------------------------- what a receiver sees

  lemma {:induction false} PseudoSum(d: Details, size: u16)
    ensures BeSum(PseudoHeader(Le32(d.srcIp), Le32(d.dstIp), IP_PROTO_UDP, size))
         == BeSum(Addresses(d)) + IP_PROTO_UDP + size
  {
    SumsAppend(Addresses(d) + [0, IP_PROTO_UDP], Be16(size));
    SumsAppend(Addresses(d), [0, IP_PROTO_UDP]);
    BeWordSum(size);
    BeWordSum(IP_PROTO_UDP);
    assert Be16(IP_PROTO_UDP) == [0, IP_PROTO_UDP];
  }

  lemma BeWordSum(v: u16)
    ensures BeSum(Be16(v)) == v
  {
    PartsWord(v);
  }

  lemma {:induction false} ZeroFieldSum(d: Details)
    ensures var u := UdpDatagram(d, 0);
            BeSum(u) == BeSum(u[..UDP_CKSUM_OFFSET]) + BeSum(u[UDP_CKSUM_OFFSET + 2..])
  {
    var u := UdpDatagram(d, 0);
    SplitAround([], u, UDP_CKSUM_OFFSET);
    assert [] + u == u;
    assert u[6] == 0 && u[7] == 0;
  }

  /** What the checksum is computed over, apart from its own field. */
  function OtherWords(pseudo: seq<u8>, udp: seq<u8>): nat
    requires |udp| >= UDP_LEN
  {
    BeSum(pseudo) + BeSum(udp[..UDP_CKSUM_OFFSET]) + BeSum(udp[UDP_CKSUM_OFFSET + 2..])
  }

  lemma {:induction false} SumCovered(d: Details)
    ensures var z := UdpDatagram(d, 0);
            UdpSum(Addresses(d), z) == OtherWords(PseudoHeader(Le32(d.srcIp), Le32(d.dstIp), IP_PROTO_UDP, |z|), z)
  {
    PseudoSum(d, |UdpDatagram(d, 0)|);
    ZeroFieldSum(d);
  }

  lemma {:induction false} FieldOutside(d: Details, pseudo: seq<u8>, ck: u16)
    ensures var u := UdpDatagram(d, ck);
            && OtherWords(pseudo, u) == OtherWords(pseudo, UdpDatagram(d, 0))
            && |u| == |UdpDatagram(d, 0)| && Word(u[6], u[7]) == ck
  {
    var z := UdpDatagram(d, 0);
    var u := UdpDatagram(d, ck);
    UdpCksumField(d, ck);
    assert u[..6] == z[..6] && u[8..] == z[8..] && u[6..8] == Be16(ck);
    FieldWord(u, 6, ck);
  }

  lemma NonzeroIsField(others: nat)
    ensures NetworkField(others, NonzeroFinish(others)) && NonzeroFinish(others) != 0
  {
  }

  lemma {:induction false} FieldVerifies(pseudo: seq<u8>, u: seq<u8>, ck: u16)
    requires |pseudo| % 2 == 0 && |u| >= UDP_LEN && Word(u[6], u[7]) == ck
    requires ck == NonzeroFinish(OtherWords(pseudo, u))
    ensures ck != 0 && Verifies(pseudo + u)
  {
    NonzeroIsField(OtherWords(pseudo, u));
    NetworkFieldVerifies(pseudo, u, UDP_CKSUM_OFFSET, ck);
  }

  lemma CksumCovers(d: Details, pseudo: seq<u8>)
    requires pseudo == PseudoHeader(Le32(d.srcIp), Le32(d.dstIp), IP_PROTO_UDP, |UdpDatagram(d, 0)|)
    ensures |pseudo| == 12
    ensures UdpCksumOfDetails(d) == NonzeroFinish(OtherWords(pseudo, UdpDatagram(d, 0)))
  {
    SumCovered(d);
  }

  /** The datagram's checksum verifies over the pseudo-header, and it is never the zero that would mean
      that there is none. */
  lemma {:induction false} UdpPartVerifies(d: Details, u: seq<u8>)
    requires u == UdpDatagram(d, UdpCksumOfDetails(d))
    ensures UdpCksumOfDetails(d) != 0
    ensures Verifies(PseudoHeader(Le32(d.srcIp), Le32(d.dstIp), IP_PROTO_UDP, |u|) + u)
  {
    var ck := UdpCksumOfDetails(d);
    var pseudo := PseudoHeader(Le32(d.srcIp), Le32(d.dstIp), IP_PROTO_UDP, |u|);
    CksumCovers(d, pseudo);
    FieldOutside(d, pseudo, ck);
    FieldVerifies(pseudo, u, ck);
  }

  lemma UdpPartFields(d: Details, ck: u16)
    requires ck != 0
    ensures var u := UdpDatagram(d, ck);
            && FromBe16(u[0..2]) == d.srcPort && FromBe16(u[2..4]) == d.dstPort
            && FromBe16(u[4..6]) == |u| && u[6..8] != [0, 0] && u[8..] == d.payload
  {
    var u := UdpDatagram(d, ck);
    Be16RoundTrip(d.srcPort);
    Be16RoundTrip(d.dstPort);
    Be16RoundTrip(|u|);
    PartsWord(ck);
    assert u[0..2] == Be16(d.srcPort) && u[2..4] == Be16(d.dstPort) && u[4..6] == Be16(|u|) && u[6..8] == Be16(ck);
  }

  /** The datagram a receiver is meant to see. */
  function Expected(d: Details): Datagram {
    Datagram(Ipv4Packet(d.dstMac, d.srcMac, Le32(d.srcIp), Le32(d.dstIp), 0, 1, 0, TTL, IP_PROTO_UDP,
                        UdpDatagram(d, UdpCksumOfDetails(d))),
             d.srcPort, d.dstPort, true, d.payload)
  }

  lemma {:induction false} DatagramParsed(d: Details, ip: Ipv4Packet, u: seq<u8>)
    requires u == UdpDatagram(d, UdpCksumOfDetails(d)) && ip == Expected(d).ip
    ensures ParseUdp(ip) == Some(Expected(d))
  {
    UdpPartVerifies(d, u);
    UdpPartFields(d, UdpCksumOfDetails(d));
    PseudoIsCovered(ip.src, ip.dst, IP_PROTO_UDP, |u|);
    assert ip.payload == u;
  }

  /** Every NAT keepalive, of any payload length the code allows, is accepted by a receiver that checks
      both checksums and both lengths, with its UDP checksum present, and delivers exactly the payload. */
  lemma {:induction false} PacketAccepted(d: Details, frame: seq<u8>)
    requires frame == Packet(d)
    ensures ReceiveUdp(frame) == Some(Expected(d))
  {
    FrameAccepted(d.dstMac, d.srcMac, Le32(d.srcIp), Le32(d.dstIp), 1, TTL, IP_PROTO_UDP,
                  UdpDatagram(d, UdpCksumOfDetails(d)));
    DatagramParsed(d, Expected(d).ip, UdpDatagram(d, UdpCksumOfDetails(d)));
  }

  // ---------------------------------------------------------------- configuration

  /** What the network stack answers about addresses, or that it failed. */
  datatype Lookup = Failed(code: int) | Found(srcMac: Mac, dstMac: Mac, srcIp: u32, dstIp: u32)

  /** How much of a string of length `n` is sent. */
  function ClampedLen(n: nat): (r: nat)
    ensures r <= n && r <= MAX_PAYLOAD
  {
    var kept := n % U16_MOD;
    if kept > MAX_PAYLOAD then MAX_PAYLOAD else kept
  }

  /** A text is sent whole exactly when it has at most 127 characters, as every text that fits its
      configuration field does. */
  lemma ClampKeepsText(n: nat)
    ensures ClampedLen(n) == n <==> n <= MAX_PAYLOAD
    ensures MAX_PAYLOAD < n < U16_MOD ==> ClampedLen(n) == MAX_PAYLOAD
  {
  }

  /** The payload clamp of `cylpa_nko_get_details`: `text` is the configured C string, whose length is
      kept in 16 bits before it is compared with the limit. */
  method ClampPayload(text: seq<u8>) returns (p: Payload)
    ensures p == Sent(text)
  {
    var payloadLen: u16 := |text| % U16_MOD;
    p := [];
    if payloadLen > 0 {
      if payloadLen > MAX_PAYLOAD {
        payloadLen := MAX_PAYLOAD;
      }
      p := text[..payloadLen];
    }
  }

  /** What is sent of a configured text. */
  function Sent(text: seq<u8>): (r: seq<u8>)
    ensures |text| <= MAX_PAYLOAD ==> r == text
  {
    text[..ClampedLen(|text|)]
  }

  /** The radio's keepalive command. */
  datatype Command = Command(periodMsec: u32, data: seq<u8>)

  /** A receiver accepts the frame as a checksummed datagram between the given ends, carrying `data`. */
  predicate Delivers(frame: seq<u8>, srcMac: Mac, dstMac: Mac, srcIp: u32, dstIp: u32, srcPort: u16, dstPort: u16, data: seq<u8>) {
    var r := ReceiveUdp(frame);
    && r.Some? && r.value.checksummed
    && r.value.ip.ethSrc == srcMac && r.value.ip.ethDst == dstMac
    && r.value.ip.src == Le32(srcIp) && r.value.ip.dst == Le32(dstIp)
    && r.value.ip.tos == 0 && r.value.ip.id == 1 && r.value.ip.ttl == 225
    && r.value.srcPort == srcPort && r.value.dstPort == dstPort
    && r.value.data == data
  }

  lemma PacketDelivers(d: Details)
    ensures Delivers(Packet(d), d.srcMac, d.dstMac, d.srcIp, d.dstIp, d.srcPort, d.dstPort, d.payload)
  {
    PacketAccepted(d, Packet(d));
  }

  const WHD_SUCCESS: int := 0

  /** `cylpa_configure_nat_keepalive`: what the radio is told to send, and the result. `driver` is what the driver
      answers to the command. */
  method Configure(lookup: Lookup, interval: u32, srcPort: u16, dstPort: u16, text: seq<u8>, driver: int)
    returns (result: int, command: Option<Command>)
    requires lookup.Failed? ==> lookup.code != RESULT_OK
    ensures lookup.Failed? ==> result == lookup.code && command == None
    ensures lookup.Found? ==>
              && result == (if driver == WHD_SUCCESS then RESULT_OK else driver)
              && command.Some? && command.value.periodMsec == interval
              && Delivers(command.value.data, lookup.srcMac, lookup.dstMac, lookup.srcIp, lookup.dstIp, srcPort, dstPort,
                          Sent(text))
    ensures |text| <= MAX_PAYLOAD ==> Sent(text) == text
  {
    if lookup.Failed? {
      return lookup.code, None;
    }
    var payload := ClampPayload(text);
    var d := Details(lookup.srcMac, lookup.dstMac, lookup.srcIp, lookup.dstIp, srcPort, dstPort, payload);
    var frame := Build(d);
    command := Some(Command(interval, frame));
    result := if driver != WHD_SUCCESS then driver else RESULT_OK;
  }

  /** The frame in a buffer of its own. */
  method Build(d: Details) returns (frame: seq<u8>)
    ensures Delivers(frame, d.srcMac, d.dstMac, d.srcIp, d.dstIp, d.srcPort, d.dstPort, d.payload)
  {
    var buf := new u8[MAX_LEN];
    var _ := PrepPacket(d, buf);
    frame := buf[..FIXED_LEN + |d.payload|];
    assert frame == Slice(buf, 0, FIXED_LEN + |d.payload|) == Packet(d);
    PacketDelivers(d);
  }
}
