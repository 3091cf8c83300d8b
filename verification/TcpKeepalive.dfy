/** The TCP keepalive packets of `cy_whd_tko_api.c`: `prep_packet` and `tko_connect_init`. */
module TcpKeepalive {
  import opened Wrappers
  import opened Words
  import opened Checksum
  import opened LpaCommon
  import opened Frames
  import opened Receiver

  /** In-band error value of this file. It is also a possible checksum. */
  const TKO_ERROR: int := 0xfffe

  const PACKET_LEN: nat := ETHER_LEN + IPV4_LEN + TCP_LEN
  const TTL: u8 := 32
  const FLAG_ACK: u8 := 0x10

  /** What a TCP connection needs in order to be kept alive, as a value. */
  datatype Conn = Conn(srcMac: Mac, dstMac: Mac, srcIp: u32, dstIp: u32,
                       srcPort: u16, dstPort: u16, seqNum: u32, ackNum: u32, rxWindow: u16)

  /** `sock_seq_t`: the caller's record, of which `tko_connect_init` rewrites `seqnum`. */
  class SockSeq {
    const srcMac: Mac
    const dstMac: Mac
    const srcIp: u32
    const dstIp: u32
    const srcPort: u16
    const dstPort: u16
    const ackNum: u32
    const rxWindow: u16
    var seqNum: u32

    constructor (c: Conn)
      ensures View() == c
    {
      srcMac, dstMac, srcIp, dstIp := c.srcMac, c.dstMac, c.srcIp, c.dstIp;
      srcPort, dstPort, ackNum, rxWindow, seqNum := c.srcPort, c.dstPort, c.ackNum, c.rxWindow, c.seqNum;
    }

    function View(): Conn
      reads this
    {
      Conn(srcMac, dstMac, srcIp, dstIp, srcPort, dstPort, seqNum, ackNum, rxWindow)
    }
  }

  // ---------------------------------------------------------------- the bytes

  function TcpHeader(c: Conn, cksum: u16): (s: seq<u8>)
    ensures |s| == TCP_LEN
  {
    (Be16(c.srcPort) + Be16(c.dstPort)) + (Be32(c.seqNum) + Be32(c.ackNum)) + Le16(0x1050) + Be16(c.rxWindow)
    + Le16(cksum) + [0, 0]
  }

  function Pseudo(c: Conn): seq<u8> {
    PseudoHeader(Le32(c.srcIp), Le32(c.dstIp), IP_PROTO_TCP, TCP_LEN)
  }

  function TcpCksum(c: Conn): u16 {
    TcpCksumOf(Pseudo(c), TcpHeader(c, 0))
  }

  function IpPart(c: Conn): seq<u8> {
    Ipv4Checked(Le32(c.srcIp), Le32(c.dstIp), IPV4_LEN + TCP_LEN, 0, TTL, IP_PROTO_TCP)
  }

  /** The keepalive frame of a connection. */
  function Packet(c: Conn): (s: seq<u8>)
    ensures |s| == PACKET_LEN
  {
    EtherHeader(c.dstMac, c.srcMac) + IpPart(c) + TcpHeader(c, TcpCksum(c))
  }

  lemma TcpCksumField(c: Conn, ck: u16)
    ensures var h := TcpHeader(c, 0);
            h[..TCP_CKSUM_OFFSET] + Le16(ck) + h[TCP_CKSUM_OFFSET + 2..] == TcpHeader(c, ck)
  {
    var front := (Be16(c.srcPort) + Be16(c.dstPort)) + (Be32(c.seqNum) + Be32(c.ackNum)) + Le16(0x1050) + Be16(c.rxWindow);
    assert |front| == TCP_CKSUM_OFFSET;
    assert TcpHeader(c, 0) == front + Le16(0) + [0, 0];
  }

  method StoreTcpFields(s: SockSeq, buf: array<u8>, tcp: nat)
    requires tcp + TCP_LEN <= buf.Length
    modifies buf
    ensures Slice(buf, tcp, TCP_LEN) == TcpHeader(s.View(), 0)
    ensures forall i | 0 <= i < tcp || tcp + TCP_LEN <= i < buf.Length :: buf[i] == old(buf[i])
  {
    ghost var done := Be16(s.srcPort) + Be16(s.dstPort);
    Append(buf, tcp, [], tcp, Be16(s.srcPort) + Be16(s.dstPort));
    Append(buf, tcp, done, tcp + 4, Be32(s.seqNum) + Be32(s.ackNum));
    done := done + (Be32(s.seqNum) + Be32(s.ackNum));
    Append(buf, tcp, done, tcp + 12, Le16(FLAG_ACK * 256 + (TCP_LEN / 4) * 16));
    done := done + Le16(0x1050);
    Append(buf, tcp, done, tcp + 14, Be16(s.rxWindow));
    done := done + Be16(s.rxWindow);
    Append(buf, tcp, done, tcp + 16, Le16(0));
    done := done + Le16(0);
    Append(buf, tcp, done, tcp + 18, [0, 0]);
  }

  lemma IpPartFields(c: Conn)
    ensures IpPart(c)[9] == IP_PROTO_TCP
    ensures IpPart(c)[12..16] == Le32(c.srcIp)
    ensures IpPart(c)[16..20] == Le32(c.dstIp)
  {
  }

  method WriteTcp(s: SockSeq, buf: array<u8>, ip: nat, tcp: nat, tcpPs: array<u8>) returns (ck: u16)
    requires tcp == ip + IPV4_LEN && tcp + TCP_LEN <= buf.Length
    requires Slice(buf, ip, IPV4_LEN) == IpPart(s.View())
    requires tcpPs.Length == 12 && tcpPs != buf
    modifies buf, tcpPs
    ensures ck == TcpCksum(s.View())
    ensures Slice(buf, tcp, TCP_LEN) == TcpHeader(s.View(), ck)
    ensures forall i | 0 <= i < tcp || tcp + TCP_LEN <= i < buf.Length :: buf[i] == old(buf[i])
  {
    ghost var ipPart := Slice(buf, ip, IPV4_LEN);
    StoreTcpFields(s, buf, tcp);
    assert Slice(buf, ip, IPV4_LEN) == ipPart;
    IpPartFields(s.View());
    SubSlice(buf, ip, IPV4_LEN, 12, 4);
    SubSlice(buf, ip, IPV4_LEN, 16, 4);
    assert buf[ip + 9] == ipPart[9];
    ck := Ipv4TcpHdrCksum(buf, ip, tcp, TCP_LEN, tcpPs);
    TcpCksumField(s.View(), ck);
    Patch(buf, tcp, TCP_LEN, TCP_CKSUM_OFFSET, Le16(ck));
  }

  // ---------------------------------------------------------------- what a receiver sees

  lemma {:induction false} TcpPartFields(c: Conn, cksum: u16, h: seq<u8>)
    requires h == TcpHeader(c, cksum)
    ensures && FromBe16(h[0..2]) == c.srcPort && FromBe16(h[2..4]) == c.dstPort
            && FromBe32(h[4..8]) == c.seqNum && FromBe32(h[8..12]) == c.ackNum
            && h[12] == 0x50 && h[13] == FLAG_ACK && FromBe16(h[14..16]) == c.rxWindow
            && FromBe16(h[18..20]) == 0 && h[20..] == []
  {
    Be16RoundTrip(c.srcPort);
    Be16RoundTrip(c.dstPort);
    Be16RoundTrip(c.rxWindow);
    Be32RoundTrip(c.seqNum);
    Be32RoundTrip(c.ackNum);
    assert h[0..2] == Be16(c.srcPort) && h[2..4] == Be16(c.dstPort) && h[14..16] == Be16(c.rxWindow);
    assert h[4..8] == Be32(c.seqNum) && h[8..12] == Be32(c.ackNum) && h[18..20] == [0, 0];
  }

  lemma {:induction false} TcpCksumCovers(c: Conn, pseudo: seq<u8>, z: seq<u8>)
    requires pseudo == Pseudo(c) && z == TcpHeader(c, 0)
    ensures |pseudo| == 12 && |z| == TCP_LEN
    ensures TcpCksum(c) == SkippingOf(Wrap32(LeSum(pseudo)), z, TCP_CKSUM_OFFSET)
  {
  }

  lemma {:induction false} TcpPartVerifies(c: Conn, pseudo: seq<u8>, h: seq<u8>)
    requires pseudo == Pseudo(c) && h == TcpHeader(c, TcpCksum(c))
    ensures Verifies(pseudo + h)
  {
    var ck := TcpCksum(c);
    var z := TcpHeader(c, 0);
    TcpCksumCovers(c, pseudo, z);
    TcpCksumField(c, ck);
    CompletedVerifies(pseudo, z, TCP_CKSUM_OFFSET, ck);
  }

  /** The segment a receiver is meant to see. */
  function Expected(c: Conn): Segment {
    Segment(Ipv4Packet(c.dstMac, c.srcMac, Le32(c.srcIp), Le32(c.dstIp), 0, 0, 0, TTL, IP_PROTO_TCP,
                       TcpHeader(c, TcpCksum(c))),
            c.srcPort, c.dstPort, c.seqNum, c.ackNum, FLAG_ACK, c.rxWindow, 0, [])
  }

  /** A verified header without options or data is parsed field by field. */
  lemma {:induction false} BareHeaderParsed(ip: Ipv4Packet, h: seq<u8>)
    requires ip.prot == IP_PROTO_TCP && ip.payload == h && |h| == TCP_LEN && h[12] == 0x50
    requires Verifies(Covered(ip.src, ip.dst, IP_PROTO_TCP, TCP_LEN) + h)
    ensures ParseTcp(ip) == Some(Segment(ip, FromBe16(h[0..2]), FromBe16(h[2..4]), FromBe32(h[4..8]), FromBe32(h[8..12]),
                                         h[13], FromBe16(h[14..16]), FromBe16(h[18..20]), h[20..]))
  {
  }

  lemma {:induction false} SegmentParsed(c: Conn, ip: Ipv4Packet, h: seq<u8>)
    requires h == TcpHeader(c, TcpCksum(c)) && ip == Expected(c).ip
    ensures ParseTcp(ip) == Some(Expected(c))
  {
    TcpPartVerifies(c, PseudoHeader(ip.src, ip.dst, IP_PROTO_TCP, TCP_LEN), h);
    TcpPartFields(c, TcpCksum(c), h);
    PseudoIsCovered(ip.src, ip.dst, IP_PROTO_TCP, TCP_LEN);
    BareHeaderParsed(ip, h);
  }

  /** A receiver takes the frame for a bare acknowledgement between the given ends, with the given numbers. */
  predicate Carries(frame: seq<u8>, srcMac: Mac, dstMac: Mac, srcIp: u32, dstIp: u32, srcPort: u16, dstPort: u16,
                    seqNum: u32, ackNum: u32, window: u16) {
    var r := ReceiveTcp(frame);
    && r.Some?
    && r.value.ip.ethSrc == srcMac && r.value.ip.ethDst == dstMac
    && r.value.ip.src == Le32(srcIp) && r.value.ip.dst == Le32(dstIp)
    && r.value.ip.tos == 0 && r.value.ip.id == 0 && r.value.ip.ttl == 32
    && r.value.srcPort == srcPort && r.value.dstPort == dstPort
    && r.value.seqNum == seqNum && r.value.ackNum == ackNum && r.value.window == window
    && r.value.flags == FLAG_ACK && r.value.urgent == 0 && r.value.data == []
  }

  predicate CarriesConn(frame: seq<u8>, c: Conn) {
    Carries(frame, c.srcMac, c.dstMac, c.srcIp, c.dstIp, c.srcPort, c.dstPort, c.seqNum, c.ackNum, c.rxWindow)
  }

  /** Every keepalive packet is accepted by a receiver that checks both checksums, and carries exactly
      the addresses, ports, numbers and window of the connection, as a bare acknowledgement. */
  lemma {:induction false} PacketAccepted(c: Conn, frame: seq<u8>)
    requires frame == Packet(c)
    ensures ReceiveTcp(frame) == Some(Expected(c))
    ensures CarriesConn(frame, c)
  {
    FrameAccepted(c.dstMac, c.srcMac, Le32(c.srcIp), Le32(c.dstIp), 0, TTL, IP_PROTO_TCP, TcpHeader(c, TcpCksum(c)));
    SegmentParsed(c, Expected(c).ip, TcpHeader(c, TcpCksum(c)));
  }

  /** The same of the record's own fields. */
  lemma {:induction false} RecordAccepted(s: SockSeq, frame: seq<u8>)
    requires frame == Packet(s.View())
    ensures Carries(frame, s.srcMac, s.dstMac, s.srcIp, s.dstIp, s.srcPort, s.dstPort, s.seqNum, s.ackNum, s.rxWindow)
  {
    PacketAccepted(s.View(), frame);
  }

  // ---------------------------------------------------------------- prep_packet

  method PrepPacket(s: SockSeq, index: int, buf: array?<u8>, off: nat, tcpPs: array<u8>) returns (len: int)
    requires buf != null ==> off + PACKET_LEN <= buf.Length && tcpPs != buf
    requires tcpPs.Length == 12
    modifies if buf != null then {buf, tcpPs} else {}
    ensures buf == null ==> len == TKO_ERROR
    ensures buf != null ==>
              && Slice(buf, off, PACKET_LEN) == Packet(s.View())
              && buf[..off] == old(buf[..off]) && buf[off + PACKET_LEN..] == old(buf[off + PACKET_LEN..])
              && len == if TcpCksum(s.View()) == TKO_ERROR then TKO_ERROR else PACKET_LEN
  {
    if buf == null {
      return TKO_ERROR;
    }
    StoreEthernet(buf, off, s.dstMac, s.srcMac);
    var ip := off + ETHER_LEN;
    WriteIpv4(buf, ip, Le32(s.srcIp), Le32(s.dstIp), IPV4_LEN + TCP_LEN, 0, TTL, IP_PROTO_TCP);
    var tcp := ip + IPV4_LEN;
    var ck := WriteTcp(s, buf, ip, tcp, tcpPs);
    ghost var c := s.View();
    assert Slice(buf, off, ETHER_LEN) == EtherHeader(c.dstMac, c.srcMac);
    assert Slice(buf, ip, IPV4_LEN) == IpPart(c);
    ThreeSlices(buf, off, ETHER_LEN, IPV4_LEN, TCP_LEN);
    len := if ck == TKO_ERROR then TKO_ERROR else PACKET_LEN;
  }

  // ---------------------------------------------------------------- tko_connect_init

  /** The sequence number before `n`, modulo 2^32. */
  function PrevSeq(n: u32): u32 {
    if n == 0 then U32_MOD - 1 else n - 1
  }

  /** The keepalive request of a connection: the previous sequence number (section 4.2.3.6 of RFC 1122). */
  function Request(c: Conn): Conn {
    c.(seqNum := PrevSeq(c.seqNum))
  }

  /** The driver's connect command (`wl_tko_connect_t`); its declaration is not part of this model, so
      the offset of its data is left open. */
  class ConnectCommand {
    const dataOffset: nat
    const data: array<u8>
    var index: u8
    var ipAddrType: u8
    var localPort: u16
    var remotePort: u16
    var localSeq: u32
    var remoteSeq: u32
    var requestLen: int
    var responseLen: int

    constructor (dataOffset: nat, data: array<u8>)
      ensures this.dataOffset == dataOffset && this.data == data
    {
      this.dataOffset, this.data := dataOffset, data;
      index, ipAddrType, localPort, remotePort, localSeq, remoteSeq, requestLen, responseLen := 0, 0, 0, 0, 0, 0, 0, 0;
    }
  }

  const ADDRS_LEN: nat := 8
  const COMMAND_DATA_LEN: nat := ADDRS_LEN + 2 * PACKET_LEN

  function Addresses(c: Conn): seq<u8> {
    Le32(c.srcIp) + Le32(c.dstIp)
  }

  /** What `prep_packet` returns for a connection. */
  function PrepLen(c: Conn): int {
    if TcpCksum(c) == TKO_ERROR then TKO_ERROR else PACKET_LEN
  }

  /** What `tko_connect_init` returns for a connection: only the request's error is noticed. */
  function ConnectLen(c: Conn, dataOffset: nat): int {
    if TcpCksum(Request(c)) == TKO_ERROR then TKO_ERROR
    else dataOffset + ADDRS_LEN + PACKET_LEN + PrepLen(c)
  }

  /** The connection that `tko_connect_init` leaves behind. */
  function ConnAfter(c: Conn): Conn {
    if TcpCksum(Request(c)) == TKO_ERROR then Request(c) else c
  }

  method FillCommand(connect: ConnectCommand, s: SockSeq, index: u8)
    requires connect.data.Length >= COMMAND_DATA_LEN
    modifies connect, connect.data
    ensures connect.index == index && connect.ipAddrType == 0
    ensures connect.localPort == s.srcPort && connect.remotePort == s.dstPort
    ensures connect.localSeq == s.seqNum && connect.remoteSeq == s.ackNum
    ensures connect.data[..ADDRS_LEN] == Addresses(s.View())
  {
    connect.index := index;
    connect.ipAddrType := 0;
    connect.localPort := s.srcPort;
    connect.remotePort := s.dstPort;
    connect.localSeq := s.seqNum;
    connect.remoteSeq := s.ackNum;
    Append(connect.data, 0, [], 0, Le32(s.srcIp));
    Append(connect.data, 0, Le32(s.srcIp), 4, Le32(s.dstIp));
    assert Slice(connect.data, 0, ADDRS_LEN) == connect.data[..ADDRS_LEN];
  }

  /** Prepare a packet behind the `at` bytes already in `data`. */
  method PrepNext(data: array<u8>, at: nat, s: SockSeq, index: int, tcpPs: array<u8>) returns (len: int)
    requires at + PACKET_LEN <= data.Length && tcpPs != data && tcpPs.Length == 12
    modifies data, tcpPs
    ensures data[..at + PACKET_LEN] == old(data[..at]) + Packet(s.View())
    ensures len == PrepLen(s.View())
  {
    len := PrepPacket(s, index, data, at, tcpPs);
    assert data[..at + PACKET_LEN] == data[..at] + Slice(data, at, PACKET_LEN);
  }

  method ConnectInit(connect: ConnectCommand, s: SockSeq, index: u8, tcpPs: array<u8>) returns (len: int)
    requires connect.data.Length >= COMMAND_DATA_LEN && tcpPs.Length == 12 && tcpPs != connect.data
    modifies connect, connect.data, s, tcpPs
    ensures connect.index == index && connect.ipAddrType == 0
    ensures connect.localPort == s.srcPort && connect.remotePort == s.dstPort
    ensures connect.localSeq == old(s.seqNum) && connect.remoteSeq == s.ackNum
    ensures len == ConnectLen(old(s.View()), connect.dataOffset)
    ensures s.View() == ConnAfter(old(s.View()))
    ensures TcpCksum(Request(old(s.View()))) == TKO_ERROR ==>
              && connect.data[..ADDRS_LEN + PACKET_LEN] == Addresses(s.View()) + Packet(s.View())
    ensures TcpCksum(Request(old(s.View()))) != TKO_ERROR ==>
              && connect.data[..COMMAND_DATA_LEN] == Addresses(s.View()) + Packet(Request(s.View())) + Packet(s.View())
              && connect.requestLen == PACKET_LEN && connect.responseLen == PrepLen(s.View())
  {
    FillCommand(connect, s, index);
    var dataLen := ADDRS_LEN;

    // the request repeats an acknowledged octet
    s.seqNum := if s.seqNum == 0 then U32_MOD - 1 else s.seqNum - 1;
    var requestLen := PrepNext(connect.data, dataLen, s, index, tcpPs);
    connect.requestLen := requestLen;
    if connect.requestLen == TKO_ERROR {
      return TKO_ERROR;
    }
    dataLen := dataLen + connect.requestLen;
    s.seqNum := if s.seqNum == U32_MOD - 1 then 0 else s.seqNum + 1;
    var responseLen := PrepNext(connect.data, dataLen, s, index, tcpPs);
    connect.responseLen := responseLen;
    if connect.requestLen == TKO_ERROR {   // sic: tests the request again
      return TKO_ERROR;
    }
    dataLen := dataLen + connect.responseLen;
    len := connect.dataOffset + dataLen;
  }

  // ---------------------------------------------------------------- the pair

  const SEQ_AT: nat := ETHER_LEN + IPV4_LEN + 4
  const CKSUM_AT: nat := ETHER_LEN + IPV4_LEN + TCP_CKSUM_OFFSET

  /** Request and response differ only in the sequence number and the TCP checksum. */
  lemma {:induction false} PairDiffersOnlyInSequence(c: Conn, i: nat)
    requires i < PACKET_LEN
    ensures !(SEQ_AT <= i < SEQ_AT + 4 || CKSUM_AT <= i < CKSUM_AT + 2) ==> Packet(Request(c))[i] == Packet(c)[i]
    ensures Packet(Request(c))[SEQ_AT..SEQ_AT + 4] != Packet(c)[SEQ_AT..SEQ_AT + 4]
  {
    var r := Request(c);
    var front := EtherHeader(c.dstMac, c.srcMac) + IpPart(c);
    assert Packet(r) == front + TcpHeader(r, TcpCksum(r)) && Packet(c) == front + TcpHeader(c, TcpCksum(c));
    assert Packet(r)[SEQ_AT..SEQ_AT + 4] == Be32(r.seqNum) && Packet(c)[SEQ_AT..SEQ_AT + 4] == Be32(c.seqNum);
    Be32RoundTrip(r.seqNum);
    Be32RoundTrip(c.seqNum);
  }

  /** Both packets of a command are accepted, the request one sequence number before the response modulo 2^32, and the
      command's two addresses are the source and the destination of both. */
  lemma {:induction false} PairAccepted(c: Conn, data: seq<u8>)
    requires |data| >= COMMAND_DATA_LEN
    requires data[..COMMAND_DATA_LEN] == Addresses(c) + Packet(Request(c)) + Packet(c)
    ensures ReceiveTcp(data[ADDRS_LEN..ADDRS_LEN + PACKET_LEN]) == Some(Expected(Request(c)))
    ensures ReceiveTcp(data[ADDRS_LEN + PACKET_LEN..COMMAND_DATA_LEN]) == Some(Expected(c))
    ensures (Expected(Request(c)).seqNum + 1) % U32_MOD == Expected(c).seqNum
    ensures data[0..4] == Expected(Request(c)).ip.src == Expected(c).ip.src
    ensures data[4..8] == Expected(Request(c)).ip.dst == Expected(c).ip.dst
  {
    WrapIsModulo(Expected(Request(c)).seqNum + 1);
    var d := data[..COMMAND_DATA_LEN];
    assert data[0..4] == d[0..4] == Le32(c.srcIp) && data[4..8] == d[4..8] == Le32(c.dstIp);
    assert data[ADDRS_LEN..ADDRS_LEN + PACKET_LEN] == d[ADDRS_LEN..ADDRS_LEN + PACKET_LEN] == Packet(Request(c));
    assert data[ADDRS_LEN + PACKET_LEN..COMMAND_DATA_LEN] == d[ADDRS_LEN + PACKET_LEN..] == Packet(c);
    PacketAccepted(Request(c), data[ADDRS_LEN..ADDRS_LEN + PACKET_LEN]);
    PacketAccepted(c, data[ADDRS_LEN + PACKET_LEN..COMMAND_DATA_LEN]);
  }

  /** The command sent to the device has the length its two packets need exactly when neither TCP checksum is the
      value the code reserves for errors. The caller's sequence number is restored exactly when the request's is
      not: an error in the response alone goes unnoticed and does restore it. */
  lemma ConnectLenCorrect(c: Conn, dataOffset: nat)
    requires dataOffset < 0x1000
    ensures ConnectLen(c, dataOffset) == dataOffset + COMMAND_DATA_LEN
            <==> TcpCksum(c) != TKO_ERROR && TcpCksum(Request(c)) != TKO_ERROR
    ensures ConnAfter(c) == c <==> TcpCksum(Request(c)) != TKO_ERROR
    ensures ConnectLen(c, dataOffset) == TKO_ERROR <==> ConnAfter(c) != c
  {
  }

  /** The TCP header up to the window. */
  function Front(c: Conn): (s: seq<u8>)
    ensures |s| == 14 && s[12..] == Le16(0x1050)
  {
    (Be16(c.srcPort) + Be16(c.dstPort)) + (Be32(c.seqNum) + Be32(c.ackNum)) + Le16(0x1050)
  }

  lemma {:induction false} FrontPositive(c: Conn, front: seq<u8>)
    requires |front| == 14 && front[12..] == Le16(0x1050)
    ensures LeSum(front) > 0
  {
    SumsAppend(front[..12], front[12..]);
    assert front == front[..12] + front[12..];
  }

  lemma WordSums(v: u16)
    ensures LeSum(Be16(v)) == Swap16(v)
    ensures LeSum([0, 0]) == 0
  {
  }

  lemma {:induction false} HeaderSums(c: Conn, front: seq<u8>, h: seq<u8>)
    requires front == Front(c) && h == TcpHeader(c, 0)
    ensures LeSum(h[..TCP_CKSUM_OFFSET]) == LeSum(front) + Swap16(c.rxWindow)
    ensures LeSum(h[TCP_CKSUM_OFFSET + 2..]) == 0
  {
    assert h[..16] == front + Be16(c.rxWindow);
    assert h[18..] == [0, 0];
    SumsAppend(front, Be16(c.rxWindow));
    WordSums(c.rxWindow);
  }

  /** What a connection contributes to its TCP checksum apart from the window. */
  lemma {:induction false} WindowTerm(c: Conn, pseudo: seq<u8>, front: seq<u8>)
    requires pseudo == Pseudo(c) && front == Front(c)
    ensures TcpCksum(c) == ONES - Canon(LeSum(pseudo) + LeSum(front) + Swap16(c.rxWindow))
  {
    var h := TcpHeader(c, 0);
    TcpCksumCovers(c, pseudo, h);
    SkippingNoWrap(pseudo, h, TCP_CKSUM_OFFSET);
    HeaderSums(c, front, h);
    assert LeSum(pseudo) + LeSum(h[..TCP_CKSUM_OFFSET]) + LeSum(h[TCP_CKSUM_OFFSET + 2..])
        == LeSum(pseudo) + LeSum(front) + Swap16(c.rxWindow);
  }

  /** Some word moves any nonzero sum to the representative 1. */
  lemma {:induction false} WordToOne(rest: nat) returns (v: u16)
    requires rest > 0
    ensures Canon(rest + v) == 1
  {
    var k := CanonWitness(rest);
    var r := Canon(rest);
    if r == ONES {
      v := 1;
      CanonIs(rest + 1, 1, k + 1);
    } else if r == 1 {
      v := 0;
      CanonIs(rest, 1, k);
    } else {
      v := ONES + 1 - r;
      CanonIs(rest + v, 1, k + 1);
    }
  }

  /** The reserved value is no corner case: for every connection some receive window makes a correctly
      built keepalive be reported as an error. */
  lemma {:induction false} EveryConnectionCanFail(c: Conn) returns (w: u16)
    ensures TcpCksum(c.(rxWindow := w)) == TKO_ERROR
  {
    var pseudo, front := Pseudo(c), Front(c);
    FrontPositive(c, front);
    var v := WordToOne(LeSum(pseudo) + LeSum(front));
    w := Swap16(v);
    Swap16Involutive(v);
    WindowTerm(c.(rxWindow := w), pseudo, front);
  }
}
