/** The checksum routines of `cy_lpa_common.c`, over buffers in memory. A C pointer is an array
    and an offset; `null` is the NULL pointer. `uint32_t` sums wrap. */
module LpaCommon {
  import opened Words
  import opened Checksum

  /** In-band error value of this file. */
  const COMMON_ERR: u16 := 0xffed

  const IPV4_MIN_HEADER_LEN: int := 20
  const TCP_MIN_HEADER_LEN: int := 20
  const IP_PROTO_TCP: u8 := 6
  const IP_PROTO_UDP: u8 := 17

  /** Offsets of the checksum fields. */
  const IPV4_CKSUM_OFFSET: nat := 10
  const TCP_CKSUM_OFFSET: nat := 16
  const UDP_CKSUM_OFFSET: nat := 6

  /** `count` bytes at `off`. */
  ghost function Slice(a: array<u8>, off: nat, count: nat): seq<u8>
    requires off + count <= a.Length
    reads a
  {
    a[off..off + count]
  }

  /** `*val16` at byte offset `p` of a little-endian host. */
  function WordAt(a: array<u8>, p: nat): u16
    requires p + 2 <= a.Length
    reads a
  {
    Word(a[p + 1], a[p])
  }

  lemma SliceWord(a: array<u8>, off: nat, count: nat)
    requires count >= 2 && off + count <= a.Length
    ensures LeSum(Slice(a, off, count)) == WordAt(a, off) + LeSum(Slice(a, off + 2, count - 2))
  {
    assert Slice(a, off, count)[2..] == Slice(a, off + 2, count - 2);
  }

  method IpCksumPartial(sum: u32, val8: array?<u8>, off: nat, count: u32) returns (r: u32)
    requires val8 != null ==> off + count <= val8.Length
    ensures val8 == null || count % 2 != 0 ==> r == COMMON_ERR
    ensures val8 != null && count % 2 == 0 ==> r == Wrap32(sum + LeSum(Slice(val8, off, count)))
  {
    if val8 == null || count % 2 != 0 {
      return COMMON_ERR;
    }
    r := sum;
    ghost var added: nat := 0;
    var n := count / 2;
    for i := 0 to n
      invariant r == Wrap32(sum + added)
      invariant added + LeSum(Slice(val8, off + 2 * i, count - 2 * i)) == LeSum(Slice(val8, off, count))
    {
      var p := off + 2 * i;
      SliceWord(val8, p, count - 2 * i);
      WrapAdds(sum + added, WordAt(val8, p));
      r := Wrap32(r + WordAt(val8, p));
      added := added + WordAt(val8, p);
    }
  }

  /** The end of `ip_cksum`: fold a 32-bit sum to 16 bits in two steps and complement it. */
  method FoldTwice(sum: u32) returns (r: u16)
    ensures r == FinishOf(sum)
  {
    FoldTwiceIsCanon(sum);
    var once := sum / U16_MOD + sum % U16_MOD;
    var twice := once + once / U16_MOD;
    r := 0xffff - twice % U16_MOD;
  }

  method IpCksum(sum: u32, val8: array?<u8>, off: nat, count: u32) returns (r: u16)
    requires val8 != null ==> off + count <= val8.Length
    ensures val8 == null ==> r == COMMON_ERR
    ensures val8 != null ==> r == IpCksumOf(sum, Slice(val8, off, count))
  {
    if val8 == null {
      return COMMON_ERR;
    }
    var acc, left, p := sum, count, off;
    ghost var added: nat := 0;
    while left > 1
      invariant 0 <= left && p + left == off + count
      invariant acc == Wrap32(sum + added)
      invariant added + LeSum(Slice(val8, p, left)) == LeSum(Slice(val8, off, count))
      decreases left
    {
      SliceWord(val8, p, left);
      WrapAdds(sum + added, WordAt(val8, p));
      acc := Wrap32(acc + WordAt(val8, p));
      added := added + WordAt(val8, p);
      p, left := p + 2, left - 2;
    }
    // an odd length ends in a low byte
    if left > 0 {
      WrapAdds(sum + added, val8[p]);
      acc := Wrap32(acc + val8[p]);
    }
    r := FoldTwice(acc);
  }

  /** What a sender that skips the two bytes at `at` computes for `s` after a partial sum:
      the same as summing `s` with that field zero. */
  function SkippingOf(sum: u32, s: seq<u8>, at: nat): u16
    requires at + 2 <= |s|
  {
    ONES - Canon(Wrap32(sum + LeSum(s[..at]) + LeSum(s[at + 2..])))
  }

  lemma {:induction false} ZeroedSum(a: seq<u8>, b: seq<u8>)
    requires |a| % 2 == 0
    ensures LeSum(a + [0, 0] + b) == LeSum(a) + LeSum(b)
  {
    SumsAppend(a + [0, 0], b);
    SumsAppend(a, [0, 0]);
    ZeroWord();
  }

  lemma ZeroWord()
    ensures LeSum([0, 0]) == 0
  {
  }

  lemma {:induction false} SkippingIsZeroing(sum: u32, s: seq<u8>, at: nat)
    requires at % 2 == 0 && at + 2 <= |s|
    ensures SkippingOf(sum, s, at) == IpCksumOf(sum, s[..at] + [0, 0] + s[at + 2..])
  {
    ZeroedSum(s[..at], s[at + 2..]);
  }

  method TcpHdrChksum(sum: u32, buf: array<u8>, tcpHdr: nat, tcpLen: u16) returns (r: u16)
    requires tcpHdr + tcpLen <= buf.Length
    ensures tcpLen < TCP_MIN_HEADER_LEN ==> r == COMMON_ERR
    ensures tcpLen >= TCP_MIN_HEADER_LEN ==> r == SkippingOf(sum, Slice(buf, tcpHdr, tcpLen), TCP_CKSUM_OFFSET)
  {
    if tcpLen < TCP_MIN_HEADER_LEN {
      return COMMON_ERR;
    }
    var partial := IpCksumPartial(sum, buf, tcpHdr, TCP_CKSUM_OFFSET);
    r := IpCksum(partial, buf, tcpHdr + TCP_CKSUM_OFFSET + 2, tcpLen - TCP_CKSUM_OFFSET - 2);
    SliceSplit(buf, tcpHdr, tcpLen, TCP_CKSUM_OFFSET);
    WrapAdds(sum + LeSum(Slice(buf, tcpHdr, TCP_CKSUM_OFFSET)),
             LeSum(Slice(buf, tcpHdr + TCP_CKSUM_OFFSET + 2, tcpLen - TCP_CKSUM_OFFSET - 2)));
  }

  lemma SliceSplit(a: array<u8>, off: nat, count: nat, at: nat)
    requires at + 2 <= count && off + count <= a.Length
    ensures Slice(a, off, count)[..at] == Slice(a, off, at)
    ensures Slice(a, off, count)[at + 2..] == Slice(a, off + at + 2, count - at - 2)
  {
  }

  lemma SubSlice(a: array<u8>, off: nat, count: nat, at: nat, n: nat)
    requires at + n <= count && off + count <= a.Length
    ensures Slice(a, off + at, n) == Slice(a, off, count)[at..at + n]
  {
    var s := a[..];
    assert Slice(a, off, count) == s[off..off + count] && Slice(a, off + at, n) == s[off + at..off + at + n];
    assert s[off..off + count][at..at + n] == s[off + at..off + at + n];
  }

  lemma ThreeSlices(a: array<u8>, off: nat, l: nat, m: nat, n: nat)
    requires off + l + m + n <= a.Length
    ensures Slice(a, off, l + m + n) == Slice(a, off, l) + Slice(a, off + l, m) + Slice(a, off + l + m, n)
  {
  }

  method Ipv4HdrCksum(buf: array?<u8>, ip: nat, ipLen: u32) returns (r: u16)
    requires buf != null ==> ip + ipLen <= buf.Length
    ensures buf == null || ipLen < IPV4_MIN_HEADER_LEN ==> r == COMMON_ERR
    ensures buf != null && ipLen >= IPV4_MIN_HEADER_LEN ==>
              r == SkippingOf(0, Slice(buf, ip, ipLen), IPV4_CKSUM_OFFSET)
  {
    if buf == null || ipLen < IPV4_MIN_HEADER_LEN {
      return COMMON_ERR;
    }
    var partial := IpCksumPartial(0, buf, ip, IPV4_CKSUM_OFFSET);
    r := IpCksum(partial, buf, ip + IPV4_CKSUM_OFFSET + 2, ipLen - IPV4_CKSUM_OFFSET - 2);
    SliceSplit(buf, ip, ipLen, IPV4_CKSUM_OFFSET);
    WrapAdds(LeSum(Slice(buf, ip, IPV4_CKSUM_OFFSET)),
             LeSum(Slice(buf, ip + IPV4_CKSUM_OFFSET + 2, ipLen - IPV4_CKSUM_OFFSET - 2)));
  }

  /** Checksum over pseudo-header and segment, skipping the TCP checksum field. */
  function TcpCksumOf(pseudo: seq<u8>, segment: seq<u8>): u16
    requires |segment| >= TCP_MIN_HEADER_LEN
  {
    SkippingOf(Wrap32(LeSum(pseudo)), segment, TCP_CKSUM_OFFSET)
  }

  /** Refill the static pseudo-header of the C function. */
  method FillPseudoHeader(tcpPs: array<u8>, buf: array<u8>, ip: nat, tcpLen: u16)
    requires ip + IPV4_MIN_HEADER_LEN <= buf.Length
    requires tcpPs.Length == 12 && tcpPs != buf
    modifies tcpPs
    ensures tcpPs[..] == PseudoHeader(Slice(buf, ip + 12, 4), Slice(buf, ip + 16, 4), buf[ip + 9], tcpLen)
  {
    tcpPs[0], tcpPs[1], tcpPs[2], tcpPs[3] := buf[ip + 12], buf[ip + 13], buf[ip + 14], buf[ip + 15];
    tcpPs[4], tcpPs[5], tcpPs[6], tcpPs[7] := buf[ip + 16], buf[ip + 17], buf[ip + 18], buf[ip + 19];
    tcpPs[8], tcpPs[9], tcpPs[10], tcpPs[11] := 0, buf[ip + 9], Hi(tcpLen), Lo(tcpLen);
  }

  method Ipv4TcpHdrCksum(buf: array<u8>, ip: nat, tcp: nat, tcpLen: u16, tcpPs: array<u8>) returns (r: u16)
    requires ip + IPV4_MIN_HEADER_LEN <= buf.Length && tcp + tcpLen <= buf.Length
    requires tcpPs.Length == 12 && tcpPs != buf
    modifies tcpPs
    ensures tcpLen < TCP_MIN_HEADER_LEN ==> r == COMMON_ERR
    ensures tcpLen >= TCP_MIN_HEADER_LEN ==>
              r == TcpCksumOf(PseudoHeader(Slice(buf, ip + 12, 4), Slice(buf, ip + 16, 4), buf[ip + 9], tcpLen),
                              Slice(buf, tcp, tcpLen))
  {
    if tcpLen < TCP_MIN_HEADER_LEN {
      return COMMON_ERR;
    }
    FillPseudoHeader(tcpPs, buf, ip, tcpLen);
    assert Slice(tcpPs, 0, 12) == tcpPs[..];
    var sum := IpCksumPartial(0, tcpPs, 0, 12);
    r := TcpHdrChksum(sum, buf, tcp, tcpLen);
  }

  /** What the bytes from index `i` on contribute: from an odd index the first is a low byte. */
  ghost function Tail(s: seq<u8>, i: nat): nat
    requires i <= |s|
  {
    if i % 2 == 0 then BeSum(s[i..])
    else if i == |s| then 0
    else s[i] + BeSum(s[i + 1..])
  }

  lemma TailStep(s: seq<u8>, i: nat)
    requires i < |s|
    ensures Tail(s, i) == (if i % 2 == 1 then s[i] else Word(s[i], 0)) + Tail(s, i + 1)
  {
    if i + 1 < |s| {
      assert s[i..][2..] == s[i + 2..];
    }
  }

  method ChecksumAdd(len: u16, buf: array<u8>, off: nat) returns (sum: u32)
    requires off + len <= buf.Length
    ensures sum == BeSum(Slice(buf, off, len)) < 0x8000_0000
  {
    sum := 0;
    ghost var s := Slice(buf, off, len);
    assert s[0..] == s;
    SumsBounded(s);
    for i := 0 to len
      invariant sum + Tail(s, i) == BeSum(s)
    {
      TailStep(s, i);
      if i % 2 == 1 {
        sum := sum + buf[off + i];
      } else {
        sum := sum + Word(buf[off + i], 0);
      }
    }
  }

  method ChecksumFinish(sum: u32) returns (r: u16)
    ensures r == FinishOf(sum)
  {
    var s := sum;
    while s / U16_MOD != 0
      invariant 0 <= s < U32_MOD
      invariant Canon(s) == Canon(sum)
      decreases s
    {
      FoldKeepsCanon(s);
      s := Fold(s);
    }
    CanonIs(s, s, 0);
    r := 0xffff - s;
  }

  /** What a UDP checksum covers besides its own field: datagram, addresses, protocol and length. */
  function UdpSum(addrs: seq<u8>, datagram: seq<u8>): nat {
    BeSum(datagram) + BeSum(addrs) + IP_PROTO_UDP + |datagram|
  }

  /** The complement of a sum, with 0xffff in place of zero. */
  function NonzeroFinish(sum: nat): u16 {
    if Canon(sum) == ONES then ONES else ONES - Canon(sum)
  }

  /** What `cylpa_udp_cksum` returns. */
  function UdpCksumOf(addrs: seq<u8>, datagram: seq<u8>): u16 {
    NonzeroFinish(UdpSum(addrs, datagram))
  }

  method UdpCksum(length: u16, addrs: array<u8>, buf: array<u8>, off: nat) returns (r: u16)
    requires addrs.Length >= 8 && off + length <= buf.Length
    ensures r == UdpCksumOf(Slice(addrs, 0, 8), Slice(buf, off, length))
  {
    var sum := ChecksumAdd(length, buf, off);
    var a := ChecksumAdd(8, addrs, 0);
    SumsBounded(Slice(addrs, 0, 8));
    sum := sum + a;
    sum := sum + IP_PROTO_UDP + length;
    r := ChecksumFinish(sum);
    // in UDP a zero field would announce that there is no checksum
    if r == 0 {
      r := 0xffff;
    }
  }
}
