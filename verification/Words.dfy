/** Fixed-width integers and their byte layouts.
    Widths are subset types of `int`; a C operation that can leave its width is wrapped
    explicitly where it is modelled. The host is little-endian throughout. */
module Words {

  type u8 = x: int | 0 <= x < 0x100
  type u16 = x: int | 0 <= x < 0x1_0000
  type u32 = x: int | 0 <= x < 0x1_0000_0000

  const U16_MOD: int := 0x1_0000
  const U32_MOD: int := 0x1_0000_0000

  /** What a `uint32_t` holds after unsigned arithmetic with result `x`: `x` modulo 2^32. */
  function Wrap32(x: nat): u32 {
    if x < U32_MOD then x else Wrap32(x - U32_MOD)
  }

  lemma {:induction false} WrapAdds(x: nat, y: nat)
    ensures Wrap32(Wrap32(x) + y) == Wrap32(x + y)
  {
    if x >= U32_MOD {
      WrapAdds(x - U32_MOD, y);
    }
  }

  lemma {:induction false} WrapIsModulo(x: nat)
    ensures Wrap32(x) == x % U32_MOD
  {
    if x >= U32_MOD {
      WrapIsModulo(x - U32_MOD);
    }
  }

  function Lo(v: u16): u8 { v % 256 }

  function Hi(v: u16): u8 { v / 256 }

  /** `hton16` on a little-endian host: exchange the two bytes. */
  function Swap16(v: u16): u16 { Word(Lo(v), Hi(v)) }

  /** A 16-bit store of a native value. */
  function Le16(v: u16): seq<u8> { [Lo(v), Hi(v)] }

  /** A 16-bit store of `hton16(v)`. */
  function Be16(v: u16): seq<u8> { [Hi(v), Lo(v)] }

  /** A 32-bit copy of a native value (`memcpy` from a `uint32_t`). */
  function Le32(v: u32): seq<u8> { Le16(v % U16_MOD) + Le16(v / U16_MOD) }

  /** A 32-bit store of `hton32(v)`. */
  function Be32(v: u32): seq<u8> { Be16(v / U16_MOD) + Be16(v % U16_MOD) }

  /** The 16-bit number with the given high and low bytes. */
  function Word(hi: u8, lo: u8): u16 {
    var h: int := hi;
    256 * h + lo
  }

  /** Reading a big-endian field back. */
  function FromBe16(s: seq<u8>): u16
    requires |s| == 2
  {
    Word(s[0], s[1])
  }

  function FromBe32(s: seq<u8>): u32
    requires |s| == 4
  {
    U16_MOD * FromBe16(s[..2]) + FromBe16(s[2..])
  }

  lemma WordParts(hi: u8, lo: u8)
    ensures Hi(Word(hi, lo)) == hi && Lo(Word(hi, lo)) == lo
  {
  }

  lemma PartsWord(v: u16)
    ensures Word(Hi(v), Lo(v)) == v
  {
  }

  lemma Swap16Involutive(v: u16)
    ensures Swap16(Swap16(v)) == v
  {
    WordParts(Lo(v), Hi(v));
    PartsWord(v);
  }

  /** Complementing commutes with exchanging the bytes. */
  lemma Swap16Complement(v: u16)
    ensures Swap16(0xffff - v) == 0xffff - Swap16(v)
  {
    var hi, lo := Hi(v), Lo(v);
    PartsWord(v);
    assert 0xffff - v == Word(0xff - hi, 0xff - lo);
    WordParts(0xff - hi, 0xff - lo);
  }

  lemma Be16RoundTrip(v: u16)
    ensures FromBe16(Be16(v)) == v
  {
  }

  lemma Be32RoundTrip(v: u32)
    ensures |Be32(v)| == 4
    ensures FromBe32(Be32(v)) == v
  {
    assert Be32(v)[..2] == Be16(v / U16_MOD);
    assert Be32(v)[2..] == Be16(v % U16_MOD);
  }

  /** A native copy has the value's digits to base 256, lowest first. */
  lemma Le32Digits(v: u32, s: seq<u8>)
    requires s == Le32(v)
    ensures |s| == 4
    ensures s[0] == v % 0x100 && s[1] == v / 0x100 % 0x100 && s[2] == v / 0x1_0000 % 0x100 && s[3] == v / 0x100_0000
  {
  }
}
