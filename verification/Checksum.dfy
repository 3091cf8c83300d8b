/** The Internet checksum as mathematics: sums of 16-bit words in either byte order, the
    reference definition of RFC 1071, and the representation of one's-complement zero. */
module Checksum {
  import opened Words

  /** The largest 16-bit value, and the modulus of one's-complement arithmetic. */
  const ONES: int := 0xffff

  /** Sum of the words of `s` as a little-endian host reads them; a last odd byte is a low byte. */
  function LeSum(s: seq<u8>): nat {
    if |s| == 0 then 0
    else if |s| == 1 then s[0]
    else Word(s[1], s[0]) + LeSum(s[2..])
  }

  /** Sum of the words of `s` in network order; a last odd byte is a high byte. */
  function BeSum(s: seq<u8>): nat {
    if |s| == 0 then 0
    else if |s| == 1 then Word(s[0], 0)
    else Word(s[0], s[1]) + BeSum(s[2..])
  }

  /** 16-bit addition with end-around carry (section 1 of RFC 1071). */
  function OnesAdd(a: u16, b: u16): u16 {
    if a + b > ONES then a + b - ONES else a + b
  }

  /** The one's-complement sum of the network-order words of `s`, padded with a zero byte to an
      even length (section 1 of RFC 1071). This is the reference definition. */
  function OnesSum(s: seq<u8>): u16 {
    if |s| == 0 then 0
    else if |s| == 1 then Word(s[0], 0)
    else OnesAdd(Word(s[0], s[1]), OnesSum(s[2..]))
  }

  /** The receiver's test (section 1 of RFC 1071): the sum over everything, the checksum
      field included, is all ones. */
  predicate Verifies(s: seq<u8>) {
    OnesSum(s) == ONES
  }

  /** The pseudo-header in front of a TCP or UDP segment (section 3.1 of RFC 9293, RFC 768). */
  function PseudoHeader(srcIp: seq<u8>, dstIp: seq<u8>, prot: u8, size: u16): seq<u8> {
    srcIp + dstIp + [0, prot] + Be16(size)
  }

  /** The 16-bit representative a one's-complement adder gives for the integer `s`: only zero is
      represented by 0, every other multiple of 65535 by 0xffff. */
  function Canon(s: nat): u16 {
    if s <= ONES then s else Canon(s - ONES)
  }

  // ---------------------------------------------------------------- the representative

  lemma {:induction false} CanonIs(s: nat, r: u16, k: int)
    requires s == r + ONES * k
    requires s == 0 <==> r == 0
    ensures Canon(s) == r
    decreases k
  {
    if k > 0 {
      CanonIs(s - ONES, r, k - 1);
    }
  }

  lemma {:induction false} CanonWitness(s: nat) returns (k: nat)
    ensures s == Canon(s) + ONES * k
    ensures s == 0 <==> Canon(s) == 0
  {
    if s <= ONES {
      k := 0;
    } else {
      var q := CanonWitness(s - ONES);
      k := q + 1;
    }
  }

  /** Canonical values add with end-around carry. */
  lemma CanonAdds(w: u16, t: nat)
    ensures OnesAdd(w, Canon(t)) == Canon(w + t)
  {
    var k := CanonWitness(t);
    CanonIs(w + t, OnesAdd(w, Canon(t)), if w + Canon(t) > ONES then k + 1 else k);
  }

  /** The reference sum is the canonical representative of the plain integer sum. */
  lemma {:induction false} OnesSumIsCanon(s: seq<u8>)
    ensures OnesSum(s) == Canon(BeSum(s))
  {
    if |s| >= 2 {
      OnesSumIsCanon(s[2..]);
      CanonAdds(Word(s[0], s[1]), BeSum(s[2..]));
    }
  }

  // ---------------------------------------------------------------- the two folds

  /** One fold step: high half plus low half. */
  function Fold(sum: u32): u32 {
    sum / U16_MOD + sum % U16_MOD
  }

  lemma FoldKeepsCanon(sum: u32)
    ensures Canon(Fold(sum)) == Canon(sum)
    ensures sum >= U16_MOD ==> Fold(sum) < sum
  {
    var k := CanonWitness(Fold(sum));
    assert sum == Fold(sum) + ONES * (sum / U16_MOD);
    CanonIs(sum, Canon(Fold(sum)), k + sum / U16_MOD);
  }

  lemma SecondFold(once: u32)
    requires once <= 2 * ONES
    ensures (once + once / U16_MOD) % U16_MOD == Canon(once)
  {
    if once >= U16_MOD {
      assert once / U16_MOD == 1;
    }
  }

  /** Folding twice and truncating is enough for every 32-bit sum. */
  lemma FoldTwiceIsCanon(sum: u32)
    ensures Fold(sum) <= 2 * ONES
    ensures (Fold(sum) + Fold(sum) / U16_MOD) % U16_MOD == Canon(sum)
  {
    FoldKeepsCanon(sum);
    SecondFold(Fold(sum));
  }

  // ---------------------------------------------------------------- byte order

  lemma {:induction false} SumsAppend(a: seq<u8>, b: seq<u8>)
    requires |a| % 2 == 0
    ensures LeSum(a + b) == LeSum(a) + LeSum(b)
    ensures BeSum(a + b) == BeSum(a) + BeSum(b)
  {
    if |a| == 0 {
      assert a + b == b;
    } else {
      assert (a + b)[2..] == a[2..] + b;
      SumsAppend(a[2..], b);
    }
  }

  /** Swapping the bytes of every word multiplies the sum by 256 modulo 65535, and keeps zero. */
  lemma {:induction false} SwapIsTimes256(s: seq<u8>) returns (k: nat)
    ensures 256 * BeSum(s) == LeSum(s) + ONES * k
    ensures BeSum(s) == 0 <==> LeSum(s) == 0
  {
    if |s| == 0 {
      k := 0;
    } else if |s| == 1 {
      k := s[0];
    } else {
      var rest := SwapIsTimes256(s[2..]);
      k := rest + s[0];
    }
  }

  /** Byte-order independence (section 2(B) of RFC 1071): the little-endian sum is the network-order
      sum with its two bytes exchanged, representation of zero included. */
  lemma {:induction false} ByteOrderIndependence(s: seq<u8>)
    ensures Canon(LeSum(s)) == Swap16(Canon(BeSum(s)))
  {
    var k := SwapIsTimes256(s);
    var c: int := Canon(BeSum(s));
    var q := CanonWitness(BeSum(s));
    assert c * 256 == Swap16(c) + ONES * Hi(c);
    CanonIs(LeSum(s), Swap16(c), Hi(c) + 256 * q - k);
  }

  /** Neither running sum leaves 32 bits for a buffer whose length is a 16-bit number. */
  lemma {:induction false} SumsBounded(s: seq<u8>)
    ensures 2 * LeSum(s) <= ONES * (|s| + 1)
    ensures 2 * BeSum(s) <= ONES * (|s| + 1)
    ensures |s| <= ONES ==> LeSum(s) < 0x8000_0000 && BeSum(s) < 0x8000_0000
  {
    if |s| >= 2 {
      SumsBounded(s[2..]);
    }
  }

  lemma {:induction false} VerifiesEitherOrder(s: seq<u8>)
    ensures Verifies(s) <==> Canon(LeSum(s)) == ONES
  {
    OnesSumIsCanon(s);
    ByteOrderIndependence(s);
  }

  // ---------------------------------------------------------------- what the sender computes

  /** What `cylpa_checksum_finish` returns for a running sum (cy_lpa_common.c). */
  function FinishOf(sum: u32): u16 {
    ONES - Canon(sum)
  }

  /** What `ip_cksum` returns for a running sum and a buffer (cy_lpa_common.c). */
  function IpCksumOf(sum: u32, s: seq<u8>): u16 {
    FinishOf(Wrap32(sum + LeSum(s)))
  }

  lemma FinishSwaps(le: u32, be: u32)
    requires Canon(le) == Swap16(Canon(be))
    ensures FinishOf(le) == Swap16(FinishOf(be))
  {
    Swap16Complement(Canon(be));
  }

  /** Both implementations compute the Internet checksum, and they agree up to a byte swap, on
      every buffer whose length is a 16-bit number, odd lengths included. */
  lemma {:induction false} ImplementationsAgree(s: seq<u8>)
    requires |s| <= ONES
    ensures BeSum(s) < U32_MOD
    ensures IpCksumOf(0, s) == Swap16(FinishOf(BeSum(s)))
    ensures FinishOf(BeSum(s)) == ONES - OnesSum(s)
  {
    SumsBounded(s);
    ByteOrderIndependence(s);
    FinishSwaps(LeSum(s), BeSum(s));
    OnesSumIsCanon(s);
  }

  /** Storing the complement of the sum of everything else makes the whole verify, whatever
      the words are. `field` stands for the integer value of the stored checksum word. */
  lemma ComplementCompletes(others: nat, field: u16)
    requires field == ONES - Canon(others)
    ensures Canon(others + field) == ONES
  {
    var k := CanonWitness(others);
    CanonIs(others + field, ONES, k);
  }

  /** The other one's-complement zero completes as well. */
  lemma EitherZeroCompletes(others: nat, field: u16)
    requires field == ONES - Canon(others) || (Canon(others) == ONES && field == ONES)
    ensures Canon(others + field) == ONES
  {
    if field == ONES - Canon(others) {
      ComplementCompletes(others, field);
    } else {
      var k := CanonWitness(others);
      CanonIs(others + ONES, ONES, k + 1);
    }
  }
}
