/** Byte layouts of the Ethernet, IPv4, TCP and UDP headers that the keepalive builders write,
    and the stores that write them. */
module Frames {
  import opened Words
  import opened Checksum
  import opened LpaCommon

  type Mac = s: seq<u8> | |s| == 6 witness [0, 0, 0, 0, 0, 0]
  type Addr = s: seq<u8> | |s| == 4 witness [0, 0, 0, 0]

  const ETHER_LEN: nat := 14
  const IPV4_LEN: nat := 20
  const TCP_LEN: nat := 20
  const UDP_LEN: nat := 8

  function EtherHeader(dst: Mac, src: Mac): (s: seq<u8>)
    ensures |s| == ETHER_LEN
  {
    dst + src + [0x08, 0x00]
  }

  /** An option-free IPv4 header whose checksum field holds `cksum` as a native store puts it. */
  function Ipv4Header(src: Addr, dst: Addr, totLen: u16, id: u16, ttl: u8, prot: u8, cksum: u16): (s: seq<u8>)
    ensures |s| == IPV4_LEN
  {
    [0x45, 0] + (Be16(totLen) + Be16(id)) + [0, 0, ttl, prot] + Le16(cksum) + (src + dst)
  }

  /** The checksum the code computes for that header. */
  function Ipv4Cksum(src: Addr, dst: Addr, totLen: u16, id: u16, ttl: u8, prot: u8): u16 {
    SkippingOf(0, Ipv4Header(src, dst, totLen, id, ttl, prot, 0), IPV4_CKSUM_OFFSET)
  }

  function Ipv4Checked(src: Addr, dst: Addr, totLen: u16, id: u16, ttl: u8, prot: u8): (s: seq<u8>)
    ensures |s| == IPV4_LEN
  {
    Ipv4Header(src, dst, totLen, id, ttl, prot, Ipv4Cksum(src, dst, totLen, id, ttl, prot))
  }

  lemma Ipv4CksumField(src: Addr, dst: Addr, totLen: u16, id: u16, ttl: u8, prot: u8, ck: u16)
    ensures var h := Ipv4Header(src, dst, totLen, id, ttl, prot, 0);
            h[..IPV4_CKSUM_OFFSET] + Le16(ck) + h[IPV4_CKSUM_OFFSET + 2..] == Ipv4Header(src, dst, totLen, id, ttl, prot, ck)
  {
    var front := [0x45, 0] + (Be16(totLen) + Be16(id)) + [0, 0, ttl, prot];
    assert |front| == IPV4_CKSUM_OFFSET;
    assert Ipv4Header(src, dst, totLen, id, ttl, prot, 0) == front + Le16(0) + (src + dst);
  }

  /** Store one more field `s` of a header of which the bytes `done` at `off` are already written. */
  method Append(buf: array<u8>, off: nat, ghost done: seq<u8>, at: nat, s: seq<u8>)
    requires at == off + |done| && at + |s| <= buf.Length
    requires Slice(buf, off, |done|) == done
    modifies buf
    ensures Slice(buf, off, |done| + |s|) == done + s
    ensures forall i | 0 <= i < off || at + |s| <= i < buf.Length :: buf[i] == old(buf[i])
  {
    forall i | 0 <= i < |s| {
      buf[at + i] := s[i];
    }
    assert Slice(buf, off, |done|) == done;
  }

  /** Store `s` at byte `at` of the `n` bytes at `off`, which are already written. */
  method Patch(buf: array<u8>, off: nat, n: nat, at: nat, s: seq<u8>)
    requires at + |s| <= n && off + n <= buf.Length
    modifies buf
    ensures Slice(buf, off, n) == old(Slice(buf, off, n)[..at]) + s + old(Slice(buf, off, n)[at + |s|..])
    ensures forall i | 0 <= i < off || off + n <= i < buf.Length :: buf[i] == old(buf[i])
  {
    forall i | 0 <= i < |s| {
      buf[off + at + i] := s[i];
    }
  }

  method StoreEthernet(buf: array<u8>, off: nat, dst: Mac, src: Mac)
    requires off + ETHER_LEN <= buf.Length
    modifies buf
    ensures Slice(buf, off, ETHER_LEN) == EtherHeader(dst, src)
    ensures forall i | 0 <= i < off || off + ETHER_LEN <= i < buf.Length :: buf[i] == old(buf[i])
  {
    Append(buf, off, [], off, dst);
    Append(buf, off, dst, off + 6, src);
    Append(buf, off, dst + src, off + 12, Be16(0x0800));
    assert dst + src + Be16(0x0800) == EtherHeader(dst, src);
  }

  /** Write an option-free IPv4 header and its checksum at `off`, field by field. The fields are
      disjoint; they are stored here in address order. */
  method WriteIpv4(buf: array<u8>, off: nat, src: Addr, dst: Addr, totLen: u16, id: u16, ttl: u8, prot: u8)
    requires off + IPV4_LEN <= buf.Length
    modifies buf
    ensures Slice(buf, off, IPV4_LEN) == Ipv4Checked(src, dst, totLen, id, ttl, prot)
    ensures forall i | 0 <= i < off || off + IPV4_LEN <= i < buf.Length :: buf[i] == old(buf[i])
  {
    ghost var done := [0x45, 0];
    Append(buf, off, [], off, [0x45, 0]);
    Append(buf, off, done, off + 2, Be16(totLen) + Be16(id));
    done := done + (Be16(totLen) + Be16(id));
    Append(buf, off, done, off + 6, [0, 0, ttl, prot]);
    done := done + [0, 0, ttl, prot];
    Append(buf, off, done, off + 10, Le16(0));
    done := done + Le16(0);
    Append(buf, off, done, off + 12, src + dst);
    assert Slice(buf, off, IPV4_LEN) == Ipv4Header(src, dst, totLen, id, ttl, prot, 0);
    assert buf[off] == Slice(buf, off, IPV4_LEN)[0] == 0x45;
    var ck := Ipv4HdrCksum(buf, off, 4 * (buf[off] % 16));
    Ipv4CksumField(src, dst, totLen, id, ttl, prot, ck);
    Patch(buf, off, IPV4_LEN, IPV4_CKSUM_OFFSET, Le16(ck));
  }
}
