/** Wake-on-WLAN patterns of `cy_lpa_wifi_wowlpf_ol.c`: hex strings are decoded into the static arrays, and the
    bits of every mask byte are reversed in place. */
module WakePattern {
  import opened Wrappers
  import opened Words

  const MAX_PATTERN_LEN: nat := 128
  const MAX_MASK_LEN: nat := 16

  /** A string of 8-bit characters. */
  type CString = s: seq<char> | forall i | 0 <= i < |s| :: s[i] as int < 256

  /** What is handed to the driver. */
  datatype Install = Install(add: bool, offset: u16, mask: seq<bv8>, pattern: seq<bv8>)

  // ---------------------------------------------------------------- characters

  function Lower(c: int): int {
    if 'A' as int <= c <= 'Z' as int then c + 'a' as int - 'A' as int else c
  }

  function HexCharToInt(c: char): int {
    if '0' <= c <= '9' then c as int - '0' as int else Lower(c as int) - 'a' as int + 10
  }

  /** The conversion of an int to `uint8_t`, for shifting and or-ing. */
  function Low8(v: int): bv8 {
    (v % 256) as bv8
  }

  /** The byte of two digit values. */
  function Nibbles(h: int, l: int): bv8 {
    (Low8(h) << 4) | Low8(l)
  }

  /** Byte `i` of a string whose first two characters are skipped. */
  function HexByte(s: CString, i: nat): bv8
    requires 2 * i + 3 < |s|
  {
    Nibbles(HexCharToInt(s[2 * i + 2]), HexCharToInt(s[2 * i + 3]))
  }

  /** `strlen(s) / 2 - 1` stored in a `uint8_t`. */
  function SizeOf(s: CString): (n: nat)
    ensures n < 256
    ensures n > 0 && n != 255 ==> 2 * n + 1 < |s|
  {
    (|s| / 2 - 1) % 256
  }

  /** Some decoded size is larger than its array; a mask of odd length is not decoded. */
  predicate Overruns(pattern: CString, mask: CString) {
    SizeOf(pattern) > MAX_PATTERN_LEN || (|mask| % 2 == 0 && SizeOf(mask) > MAX_MASK_LEN)
  }

  /** Strings from the configuration's `char[128]` and `char[16]` overrun the arrays exactly when they are too short
      for their "0x", where `strlen / 2 - 1` wraps to 255. */
  lemma OverrunIffShort(pattern: CString, mask: CString)
    requires |pattern| < MAX_PATTERN_LEN && |mask| < MAX_MASK_LEN
    ensures Overruns(pattern, mask) <==> |pattern| < 2 || mask == ""
    ensures SizeOf(pattern) <= MAX_PATTERN_LEN <==> |pattern| >= 2
    ensures SizeOf(mask) <= MAX_MASK_LEN <==> |mask| >= 2
  {
    assert |mask| % 2 == 0 && |mask| < 2 ==> |mask| == 0;
  }

  /** The empty string, which a zero-initialised list terminator holds, has size 255. */
  lemma EmptyOverruns(mask: CString)
    ensures SizeOf("") == 255 && Overruns("", mask)
  {
  }

  function DecodedPattern(s: CString): (r: seq<bv8>)
    requires SizeOf(s) <= MAX_PATTERN_LEN
  {
    seq(SizeOf(s), i requires 0 <= i < SizeOf(s) => HexByte(s, i))
  }

  function DecodedMask(s: CString): (r: seq<bv8>)
    requires SizeOf(s) <= MAX_MASK_LEN
  {
    seq(SizeOf(s), i requires 0 <= i < SizeOf(s) => Reversed(HexByte(s, i)))
  }

  // ---------------------------------------------------------------- bits

  predicate Bit(x: bv8, k: nat)
    requires k < 8
  {
    (x >> k) & 1 == 1
  }

  /** One round of the reversal: if bits `k` and `7 - k` differ, both are toggled. */
  function SwapBits(x: bv8, k: nat): bv8
    requires k < 4
  {
    if (x >> k) & 1 != (x >> (7 - k)) & 1 then (x ^ (1 << k)) ^ (1 << (7 - k)) else x
  }

  function Rounds(x: bv8, k: nat): bv8
    requires k <= 4
  {
    if k == 0 then x else SwapBits(Rounds(x, k - 1), k - 1)
  }

  function Reversed(x: bv8): bv8 {
    SwapBits(SwapBits(SwapBits(SwapBits(x, 0), 1), 2), 3)
  }

  lemma RoundsReverse(x: bv8)
    ensures Rounds(x, 4) == Reversed(x)
  {
    assert Rounds(x, 1) == SwapBits(x, 0);
    assert Rounds(x, 2) == SwapBits(SwapBits(x, 0), 1);
    assert Rounds(x, 3) == SwapBits(SwapBits(SwapBits(x, 0), 1), 2);
  }

  /** Reversal moves every bit to the mirrored position. */
  lemma ReversedAt(x: bv8, j: nat)
    requires j < 8
    ensures Bit(Reversed(x), j) == Bit(x, 7 - j)
  {
  }

  lemma ReversedTwice(x: bv8)
    ensures Reversed(Reversed(x)) == x
  {
  }

  // ---------------------------------------------------------------- the code

  /** The file's static arrays. */
  class WowlPf {
    const patternArray: array<bv8>
    const maskArray: array<bv8>

    constructor (patternArray: array<bv8>, maskArray: array<bv8>)
      requires patternArray != maskArray
      requires patternArray.Length == MAX_PATTERN_LEN && maskArray.Length == MAX_MASK_LEN
      ensures this.patternArray == patternArray && this.maskArray == maskArray && Valid()
    {
      this.patternArray, this.maskArray := patternArray, maskArray;
    }

    predicate Valid()
      reads this
    {
      patternArray != maskArray && patternArray.Length == MAX_PATTERN_LEN && maskArray.Length == MAX_MASK_LEN
    }

    /** `whd_wowl_set_pattern`. `driver` is what the driver answers if it is called, `call` the call it receives.
        With `overrun` a size does not fit its array: the C code reads and writes past the ends of string and array,
        and nothing is said of the rest. */
    method SetPattern(pattern: CString, offset: u16, mask: CString, set_: bool, driver: int)
        returns (overrun: bool, result: int, call: Option<Install>)
      requires Valid()
      modifies patternArray, maskArray
      ensures overrun == Overruns(pattern, mask)
      ensures !overrun && |mask| % 2 != 0 ==> result == 1 && call.None? && maskArray[..] == old(maskArray[..])
      ensures !overrun && |mask| % 2 == 0 ==>
                && result == (if driver == 0 then 0 else 1)
                && call == Some(Install(set_, offset, DecodedMask(mask), DecodedPattern(pattern)))
                && maskArray[..] == DecodedMask(mask) + old(maskArray[SizeOf(mask)..])
      ensures !overrun ==> patternArray[..] == DecodedPattern(pattern) + old(patternArray[SizeOf(pattern)..])
    {
      overrun, result, call := false, 1, None;
      var patternSize := SizeOf(pattern);
      if patternSize > patternArray.Length {
        overrun := true;
        return;
      }
      DecodePattern(pattern);
      if |mask| % 2 != 0 {
        return;
      }
      var maskSize := SizeOf(mask);
      if maskSize > maskArray.Length {
        overrun := true;
        return;
      }
      DecodeMask(mask);
      assert maskArray[..maskSize] == DecodedMask(mask);
      assert patternArray[..patternSize] == DecodedPattern(pattern);
      call := Some(Install(set_, offset, maskArray[..maskSize], patternArray[..patternSize]));
      result := if driver != 0 then 1 else driver;
    }

    method DecodePattern(pattern: CString)
      requires Valid() && SizeOf(pattern) <= MAX_PATTERN_LEN
      modifies patternArray
      ensures patternArray[..] == DecodedPattern(pattern) + old(patternArray[SizeOf(pattern)..])
    {
      var size := SizeOf(pattern);
      var i, j := 0, 1;
      while i < size
        invariant 0 <= i <= size && j == i + 1
        invariant forall n | 0 <= n < i :: patternArray[n] == HexByte(pattern, n)
        invariant forall n | i <= n < MAX_PATTERN_LEN :: patternArray[n] == old(patternArray[n])
      {
        patternArray[i] := (Low8(HexCharToInt(pattern[2 * j])) << 4) | Low8(HexCharToInt(pattern[2 * j + 1]));
        i, j := i + 1, j + 1;
      }
    }

    method DecodeMask(mask: CString)
      requires Valid() && SizeOf(mask) <= MAX_MASK_LEN
      modifies maskArray
      ensures maskArray[..] == DecodedMask(mask) + old(maskArray[SizeOf(mask)..])
    {
      var size := SizeOf(mask);
      var i, j := 0, 1;
      while i < size
        invariant 0 <= i <= size && j == i + 1
        invariant forall n | 0 <= n < i :: maskArray[n] == Reversed(HexByte(mask, n))
        invariant forall n | i <= n < MAX_MASK_LEN :: maskArray[n] == old(maskArray[n])
      {
        maskArray[i] := (Low8(HexCharToInt(mask[2 * j])) << 4) | Low8(HexCharToInt(mask[2 * j + 1]));
        ReverseBits(i);
        i, j := i + 1, j + 1;
      }
    }

    /** Reverses the bits of one mask byte. */
    method ReverseBits(i: nat)
      requires Valid() && i < MAX_MASK_LEN
      modifies maskArray
      ensures maskArray[i] == Reversed(old(maskArray[i]))
      ensures forall n | 0 <= n < MAX_MASK_LEN && n != i :: maskArray[n] == old(maskArray[n])
    {
      ghost var was := maskArray[i];
      for k := 0 to 4
        invariant maskArray[i] == Rounds(was, k)
        invariant forall n | 0 <= n < MAX_MASK_LEN && n != i :: maskArray[n] == old(maskArray[n])
      {
        SwapPair(i, k);
      }
      RoundsReverse(was);
    }

    /** One pass of the reversal loop. */
    method SwapPair(i: nat, k: nat)
      requires Valid() && i < MAX_MASK_LEN && k < 4
      modifies maskArray
      ensures maskArray[i] == SwapBits(old(maskArray[i]), k)
      ensures forall n | 0 <= n < MAX_MASK_LEN && n != i :: maskArray[n] == old(maskArray[n])
    {
      if (maskArray[i] >> k) & 1 != (maskArray[i] >> (7 - k)) & 1 {
        // toggle bit k, then bit 7 - k
        maskArray[i] := maskArray[i] ^ (1 << k);
        maskArray[i] := maskArray[i] ^ (1 << (7 - k));
      }
    }
  }

  // ---------------------------------------------------------------- what the decoding means

  /** `c` is a hexadecimal digit, in either case, of value `v`. */
  predicate DigitOf(c: char, v: int) {
    if v < 10 then 0 <= v && c as int == '0' as int + v
    else v < 16 && (c as int == 'a' as int + v - 10 || c as int == 'A' as int + v - 10)
  }

  lemma DigitValue(c: char, v: int)
    requires DigitOf(c, v)
    ensures HexCharToInt(c) == v
  {
  }

  /** `s` is "0x" followed by the bytes in hexadecimal, two digits each, high digit first, in any case. */
  predicate Prints(s: CString, bytes: seq<u8>) {
    && |s| == 2 * |bytes| + 2
    && s[0] == '0' && s[1] == 'x'
    && forall i | 0 <= i < |bytes| :: DigitOf(s[2 * i + 2], bytes[i] / 16) && DigitOf(s[2 * i + 3], bytes[i] % 16)
  }

  lemma NibblesJoin(h: int, l: int)
    requires 0 <= h < 16 && 0 <= l < 16
    ensures Nibbles(h, l) as int == 16 * h + l
  {
    if h > 0 {
      NibblesJoin(h - 1, l);
      Low8Next(h);
      Low8Small(l);
      NextByte(Low8(h - 1), Low8(l));
      Add16(Nibbles(h - 1, l));
    } else {
      Low8Small(l);
      assert ((0 as bv8) << 4) | Low8(l) == Low8(l);
    }
  }

  lemma Low8Next(h: int)
    requires 0 < h < 16
    ensures Low8(h) == Low8(h - 1) + 1 && Low8(h - 1) < 15
  {
    Low8Small(h);
    Low8Small(h - 1);
    Successor(Low8(h - 1), Low8(h));
  }

  lemma Successor(x: bv8, y: bv8)
    requires x as int + 1 == y as int < 16
    ensures y == x + 1 && x < 15
  {
    assert (x + 1) as int == x as int + 1;
  }

  lemma Low8Small(l: int)
    requires 0 <= l < 16
    ensures Low8(l) < 16 && Low8(l) as int == l
  {
  }

  lemma NextByte(h: bv8, l: bv8)
    requires h < 15 && l < 16
    ensures ((h + 1) << 4) | l == ((h << 4) | l) + 16
  {
  }

  lemma Add16(x: bv8)
    requires (x as int) < 240
    ensures (x + 16) as int == x as int + 16
  {
  }

  /** Decoding inverts printing, in either letter case. */
  lemma {:induction false} PatternInvertsPrinting(s: CString, bytes: seq<u8>)
    requires Prints(s, bytes) && |bytes| <= MAX_PATTERN_LEN
    ensures SizeOf(s) == |bytes|
    ensures forall i | 0 <= i < |bytes| :: DecodedPattern(s)[i] as int == bytes[i]
  {
    forall i | 0 <= i < |bytes|
      ensures DecodedPattern(s)[i] as int == bytes[i]
    {
      PrintedByte(s, bytes, i);
    }
  }

  lemma PrintedByte(s: CString, bytes: seq<u8>, i: nat)
    requires Prints(s, bytes) && i < |bytes|
    ensures HexByte(s, i) as int == bytes[i]
  {
    DigitValue(s[2 * i + 2], bytes[i] / 16);
    DigitValue(s[2 * i + 3], bytes[i] % 16);
    NibblesJoin(bytes[i] / 16, bytes[i] % 16);
  }

  predicate HexDigit(c: char) {
    '0' <= c <= '9' || 'a' <= c <= 'f' || 'A' <= c <= 'F'
  }

  /** "0x" and an even number of digits, of a size the given field holds. */
  predicate HexString(s: CString, field: nat) {
    && |s| >= 2 && |s| % 2 == 0 && |s| / 2 - 1 <= field
    && forall i | 2 <= i < |s| :: HexDigit(s[i])
  }

  /** Bit `b` of a hexadecimal string, most significant bit of the first digit first. */
  predicate StringBit(s: CString, b: nat)
    requires b / 4 + 2 < |s|
  {
    Bit(Low8(HexCharToInt(s[b / 4 + 2])), 3 - b % 4)
  }

  /** Bit `b` of a mask, least significant bit of the first byte first. */
  predicate MaskBit(mask: seq<bv8>, b: nat)
    requires b / 8 < |mask|
  {
    Bit(mask[b / 8], b % 8)
  }

  lemma HighBits(h: bv8, l: bv8, j: nat)
    requires h < 16 && l < 16 && j < 4
    ensures Bit((h << 4) | l, 7 - j) == Bit(h, 3 - j)
  {
  }

  lemma LowBits(h: bv8, l: bv8, j: nat)
    requires h < 16 && l < 16 && 4 <= j < 8
    ensures Bit((h << 4) | l, 7 - j) == Bit(l, 7 - j)
  {
  }

  lemma ByteBits(h: bv8, l: bv8, j: nat)
    requires h < 16 && l < 16 && j < 8
    ensures Bit(Reversed((h << 4) | l), j) == if j < 4 then Bit(h, 3 - j) else Bit(l, 7 - j)
  {
    ReversedAt((h << 4) | l, j);
    if j < 4 {
      HighBits(h, l, j);
    } else {
      LowBits(h, l, j);
    }
  }

  lemma DigitValid(c: char)
    requires HexDigit(c)
    ensures DigitOf(c, HexCharToInt(c))
  {
  }

  lemma DigitFits(c: char)
    requires HexDigit(c)
    ensures Low8(HexCharToInt(c)) < 16
  {
    DigitValid(c);
    Low8Small(HexCharToInt(c));
  }

  lemma DecodedDigits(s: CString, i: nat)
    requires HexString(s, MAX_PATTERN_LEN) && i < |s| / 2 - 1
    ensures var v := HexByte(s, i) as int;
            DigitOf(s[2 * i + 2], v / 16) && DigitOf(s[2 * i + 3], v % 16)
  {
    DigitValid(s[2 * i + 2]);
    DigitValid(s[2 * i + 3]);
    NibblesJoin(HexCharToInt(s[2 * i + 2]), HexCharToInt(s[2 * i + 3]));
  }

  /** Decoding loses nothing: a hexadecimal string prints exactly the bytes it is decoded to. */
  lemma {:induction false} DecodedIsPrinted(s: CString, bytes: seq<u8>)
    requires HexString(s, MAX_PATTERN_LEN) && s[0] == '0' && s[1] == 'x' && |bytes| == |s| / 2 - 1
    ensures Prints(s, bytes) <==> forall i | 0 <= i < |bytes| :: bytes[i] == DecodedPattern(s)[i] as int
  {
    if Prints(s, bytes) {
      PatternInvertsPrinting(s, bytes);
    }
    if forall i | 0 <= i < |bytes| :: bytes[i] == DecodedPattern(s)[i] as int {
      forall i | 0 <= i < |bytes|
        ensures DigitOf(s[2 * i + 2], bytes[i] / 16) && DigitOf(s[2 * i + 3], bytes[i] % 16)
      {
        DecodedDigits(s, i);
      }
    }
  }

  lemma DecodedMaskBit(s: CString, i: nat, j: nat)
    requires HexString(s, MAX_MASK_LEN) && i < |s| / 2 - 1 && j < 8
    ensures SizeOf(s) == |s| / 2 - 1
    ensures Bit(DecodedMask(s)[i], j)
         == if j < 4 then Bit(Low8(HexCharToInt(s[2 * i + 2])), 3 - j) else Bit(Low8(HexCharToInt(s[2 * i + 3])), 7 - j)
  {
    DigitFits(s[2 * i + 2]);
    DigitFits(s[2 * i + 3]);
    ByteBits(Low8(HexCharToInt(s[2 * i + 2])), Low8(HexCharToInt(s[2 * i + 3])), j);
  }

  lemma StringBitAt(s: CString, i: nat, j: nat)
    requires j < 8 && 2 * i + 3 < |s|
    ensures StringBit(s, 8 * i + j)
         == if j < 4 then Bit(Low8(HexCharToInt(s[2 * i + 2])), 3 - j) else Bit(Low8(HexCharToInt(s[2 * i + 3])), 7 - j)
  {
    var b := 8 * i + j;
    if j < 4 {
      assert b / 4 == 2 * i && b % 4 == j;
    } else {
      assert b / 4 == 2 * i + 1 && b % 4 == j - 4;
    }
  }

  /** The mask string read from its first digit on selects the pattern bytes in order: bit `b` of the decoded
      mask, least significant bit first, is bit `b` of the string, most significant bit first. */
  lemma MaskBitsInStringOrder(s: CString, b: nat)
    requires HexString(s, MAX_MASK_LEN) && b < 8 * (|s| / 2 - 1)
    ensures SizeOf(s) == |s| / 2 - 1
    ensures MaskBit(DecodedMask(s), b) == StringBit(s, b)
  {
    var i, j := b / 8, b % 8;
    DecodedMaskBit(s, i, j);
    StringBitAt(s, i, j);
    assert b == 8 * i + j;
  }
}
