/** The CRC-32 of section 8 of RFC 1952, and the nibble-table form the kernel computes. */
module Crc32 {
  import opened Numbers

  const POLYNOMIAL: bv32 := 0xEDB8_8320

  function Xor(x: bv32, y: bv32): bv32 { x ^ y }

  function Half(x: bv32): bv32 { x >> 1 }

  predicate Odd(x: bv32) { x & 1 == 1 }

  function Word(b: Byte): bv32 { b as bv32 }

  // ---- Bit at a time, as the RFC defines it ----

  /** Shift one bit out of the register, low bit first. */
  function ShiftBit(c: bv32): bv32 {
    if Odd(c) then Xor(Half(c), POLYNOMIAL) else Half(c)
  }

  function ShiftNibble(c: bv32): bv32 {
    ShiftBit(ShiftBit(ShiftBit(ShiftBit(c))))
  }

  /** The register after a byte string, from all ones: each byte is taken in and its eight bits are
      shifted out. */
  function Register(data: seq<Byte>): bv32 {
    if data == [] then 0xFFFF_FFFF
    else ShiftNibble(ShiftNibble(Xor(Register(data[..|data| - 1]), Word(data[|data| - 1]))))
  }

  function Complement(c: bv32): bv32 { c ^ 0xFFFF_FFFF }

  function Crc(data: seq<Byte>): bv32 {
    Complement(Register(data))
  }

  // ---- Four bits at a time, by table ----

  /** The sixteen table entries. */
  function Entry(i: bv32): bv32 {
    if i == 0 then 0x0000_0000 else if i == 1 then 0x1DB7_1064
    else if i == 2 then 0x3B6E_20C8 else if i == 3 then 0x26D9_30AC
    else if i == 4 then 0x76DC_4190 else if i == 5 then 0x6B6B_51F4
    else if i == 6 then 0x4DB2_6158 else if i == 7 then 0x5005_713C
    else if i == 8 then 0xEDB8_8320 else if i == 9 then 0xF00F_9344
    else if i == 10 then 0xD6D6_A3E8 else if i == 11 then 0xCB61_B38C
    else if i == 12 then 0x9B64_C2B0 else if i == 13 then 0x86D3_D2D4
    else if i == 14 then 0xA00A_E278 else 0xBDBD_F21C
  }

  function LowNibble(c: bv32): bv32 { c & 0xF }

  function HighNibbles(c: bv32): bv32 { c & 0xFFFF_FFF0 }

  function Rest(c: bv32): bv32 { c >> 4 }

  function Lookup(c: bv32): bv32 {
    Xor(Entry(LowNibble(c)), Rest(c))
  }

  // ---- Exclusive or: the laws on words, then on the named operations ----

  lemma WordAssoc(x: bv32, y: bv32, z: bv32)
    ensures (x ^ y) ^ z == x ^ (y ^ z)
  {
  }

  lemma WordShift(x: bv32, y: bv32)
    ensures (x ^ y) >> 1 == (x >> 1) ^ (y >> 1)
  {
  }

  lemma WordParity(x: bv32, y: bv32)
    ensures (x ^ y) & 1 == 1 <==> (x & 1 == 1) != (y & 1 == 1)
  {
  }

  lemma WordNibble(c: bv32)
    ensures c == (c & 0xF) ^ (c & 0xFFFF_FFF0)
  {
  }

  lemma WordHigh(c: bv32)
    ensures (c & 0xFFFF_FFF0) >> 4 == c >> 4
  {
  }

  lemma XorAssoc(x: bv32, y: bv32, z: bv32)
    ensures Xor(Xor(x, y), z) == Xor(x, Xor(y, z))
  {
    WordAssoc(x, y, z);
  }

  lemma XorComm(x: bv32, y: bv32)
    ensures Xor(x, y) == Xor(y, x)
  {
  }

  lemma XorCancel(x: bv32, p: bv32)
    ensures Xor(p, Xor(x, p)) == x
  {
  }

  lemma XorParts(x: bv32, y: bv32)
    ensures Half(Xor(x, y)) == Xor(Half(x), Half(y))
    ensures Odd(Xor(x, y)) <==> Odd(x) != Odd(y)
  {
    WordShift(x, y);
    WordParity(x, y);
  }

  // ---- The table form is the bit form ----

  /** Shifting is linear: it can be done on parts of the register and the results combined. */
  lemma ShiftLinear(x: bv32, y: bv32)
    ensures ShiftBit(Xor(x, y)) == Xor(ShiftBit(x), ShiftBit(y))
  {
    hide Xor, Half, Odd;
    XorParts(x, y);
    var a, b, p := Half(x), Half(y), POLYNOMIAL;
    if Odd(x) && Odd(y) {
      XorAssoc(a, p, Xor(b, p));
      XorCancel(b, p);
    } else if Odd(x) {
      XorAssoc(a, p, b);
      XorComm(p, b);
      XorAssoc(a, b, p);
    } else if Odd(y) {
      XorAssoc(a, b, p);
    }
  }

  lemma ShiftNibbleLinear(x: bv32, y: bv32)
    ensures ShiftNibble(Xor(x, y)) == Xor(ShiftNibble(x), ShiftNibble(y))
  {
    hide ShiftBit, Xor;
    var x1, y1 := ShiftBit(x), ShiftBit(y);
    var x2, y2 := ShiftBit(x1), ShiftBit(y1);
    var x3, y3 := ShiftBit(x2), ShiftBit(y2);
    ShiftLinear(x, y);
    ShiftLinear(x1, y1);
    ShiftLinear(x2, y2);
    ShiftLinear(x3, y3);
  }

  /** The table holds what shifting a lone nibble gives. */
  lemma NibbleTable(n: bv32)
    requires n < 16
    ensures ShiftNibble(n) == Entry(n)
  {
  }

  lemma HighPart(c: bv32)
    requires LowNibble(c) == 0
    ensures ShiftNibble(c) == Rest(c)
  {
    assert ShiftBit(c) == c >> 1;
    assert ShiftBit(c >> 1) == c >> 2;
    assert ShiftBit(c >> 2) == c >> 3;
    assert ShiftBit(c >> 3) == c >> 4;
  }

  lemma NibbleParts(c: bv32)
    ensures LowNibble(c) < 16 && LowNibble(HighNibbles(c)) == 0
    ensures c == Xor(LowNibble(c), HighNibbles(c)) && Rest(HighNibbles(c)) == Rest(c)
  {
    WordNibble(c);
    WordHigh(c);
  }

  /** A table lookup is four bit shifts. */
  lemma LookupIsFourShifts(c: bv32)
    ensures Lookup(c) == ShiftNibble(c)
  {
    hide ShiftNibble, Entry, LowNibble, HighNibbles, Xor, Rest;
    NibbleParts(c);
    ShiftNibbleLinear(LowNibble(c), HighNibbles(c));
    NibbleTable(LowNibble(c));
    HighPart(HighNibbles(c));
  }

  lemma EmptyCrc()
    ensures Crc([]) == 0
  {
  }

  /** tinf_crc32. */
  method ComputeCrc(data: seq<Byte>) returns (crc: bv32)
    ensures crc == Crc(data)
  {
    EmptyCrc();
    hide Lookup, ShiftNibble, Xor, Complement, Word;
    if |data| == 0 {
      return 0;
    }
    crc := 0xFFFF_FFFF;
    for i := 0 to |data|
      invariant crc == Register(data[..i])
    {
      assert data[..i + 1][..i] == data[..i];
      crc := Xor(crc, Word(data[i]));
      LookupIsFourShifts(crc);
      crc := Lookup(crc);
      LookupIsFourShifts(crc);
      crc := Lookup(crc);
    }
    assert data[..|data|] == data;
    crc := Complement(crc);
  }

  // ---- Known values ----

  lemma RegisterNext(data: seq<Byte>, b: Byte)
    ensures Register(data + [b]) == ShiftNibble(ShiftNibble(Xor(Register(data), Word(b))))
  {
    assert (data + [b])[..|data|] == data;
  }

  /** The register after one more byte, by two lookups. */
  lemma RegisterStep(data: seq<Byte>, b: Byte, w: bv32)
    requires Word(b) == w
    ensures Register(data + [b]) == Lookup(Lookup(Xor(Register(data), w)))
  {
    hide ShiftNibble, Lookup, Xor, Word, Register;
    RegisterNext(data, b);
    LookupIsFourShifts(Xor(Register(data), w));
    LookupIsFourShifts(Lookup(Xor(Register(data), w)));
  }

  /** The register after the next digit, from the register before it. */
  lemma DigitStep(data: seq<Byte>, b: Byte, w: bv32, before: bv32, after: bv32)
    requires Word(b) == w && Register(data) == before && Lookup(Lookup(Xor(before, w))) == after
    ensures Register(data + [b]) == after
  {
    hide Lookup, Xor, Word, Register;
    RegisterStep(data, b, w);
  }

  lemma DigitWords()
    ensures Word(0x31) == 0x31 && Word(0x32) == 0x32 && Word(0x33) == 0x33 && Word(0x34) == 0x34 && Word(0x35) == 0x35
    ensures Word(0x36) == 0x36 && Word(0x37) == 0x37 && Word(0x38) == 0x38 && Word(0x39) == 0x39
  {
  }

  lemma HeadLookups()
    ensures Lookup(Lookup(Xor(0xFFFF_FFFF, 0x31))) == 0x7C23_1048
    ensures Lookup(Lookup(Xor(0x7C23_1048, 0x32))) == 0xB0AC_BB32
    ensures Lookup(Lookup(Xor(0xB0AC_BB32, 0x33))) == 0x77B7_9C2D
  {
  }

  lemma DigitsHead(data: seq<Byte>)
    requires Register(data) == 0xFFFF_FFFF
    ensures Register(data + [0x31, 0x32, 0x33]) == 0x77B7_9C2D
  {
    hide Register, Lookup, Xor, Word;
    DigitWords();
    HeadLookups();
    var a := data + [0x31];
    var b := a + [0x32];
    DigitStep(data, 0x31, 0x31, 0xFFFF_FFFF, 0x7C23_1048);
    DigitStep(a, 0x32, 0x32, 0x7C23_1048, 0xB0AC_BB32);
    DigitStep(b, 0x33, 0x33, 0xB0AC_BB32, 0x77B7_9C2D);
    assert data + [0x31, 0x32, 0x33] == b + [0x33];
  }

  lemma MiddleLookups()
    ensures Lookup(Lookup(Xor(0x77B7_9C2D, 0x34))) == 0x641C_1F5C
    ensures Lookup(Lookup(Xor(0x641C_1F5C, 0x35))) == 0x340A_C5E3
    ensures Lookup(Lookup(Xor(0x340A_C5E3, 0x36))) == 0xF68D_2C9E
  {
  }

  lemma DigitsMiddle(data: seq<Byte>)
    requires Register(data) == 0x77B7_9C2D
    ensures Register(data + [0x34, 0x35, 0x36]) == 0xF68D_2C9E
  {
    hide Register, Lookup, Xor, Word;
    DigitWords();
    MiddleLookups();
    var a := data + [0x34];
    var b := a + [0x35];
    DigitStep(data, 0x34, 0x34, 0x77B7_9C2D, 0x641C_1F5C);
    DigitStep(a, 0x35, 0x35, 0x641C_1F5C, 0x340A_C5E3);
    DigitStep(b, 0x36, 0x36, 0x340A_C5E3, 0xF68D_2C9E);
    assert data + [0x34, 0x35, 0x36] == b + [0x36];
  }

  lemma TailLookups()
    ensures Lookup(Lookup(Xor(0xF68D_2C9E, 0x37))) == 0xAFFC_9660
    ensures Lookup(Lookup(Xor(0xAFFC_9660, 0x38))) == 0x651F_2550
    ensures Lookup(Lookup(Xor(0x651F_2550, 0x39))) == 0x340B_C6D9
  {
  }

  lemma DigitsTail(data: seq<Byte>)
    requires Register(data) == 0xF68D_2C9E
    ensures Register(data + [0x37, 0x38, 0x39]) == 0x340B_C6D9
  {
    hide Register, Lookup, Xor, Word;
    DigitWords();
    TailLookups();
    var a := data + [0x37];
    var b := a + [0x38];
    DigitStep(data, 0x37, 0x37, 0xF68D_2C9E, 0xAFFC_9660);
    DigitStep(a, 0x38, 0x38, 0xAFFC_9660, 0x651F_2550);
    DigitStep(b, 0x39, 0x39, 0x651F_2550, 0x340B_C6D9);
    assert data + [0x37, 0x38, 0x39] == b + [0x39];
  }

  lemma EmptyRegister()
    ensures Register([]) == 0xFFFF_FFFF
  {
  }

  /** The check value: the CRC of the nine digits from 1 to 9. */
  lemma CheckValue()
    ensures Crc([0x31, 0x32, 0x33, 0x34, 0x35, 0x36, 0x37, 0x38, 0x39]) == 0xCBF4_3926
  {
    EmptyRegister();
    hide Register;
    DigitsHead([]);
    var a := [] + [0x31, 0x32, 0x33];
    DigitsMiddle(a);
    var b := a + [0x34, 0x35, 0x36];
    DigitsTail(b);
    assert b + [0x37, 0x38, 0x39] == [0x31, 0x32, 0x33, 0x34, 0x35, 0x36, 0x37, 0x38, 0x39];
  }

  lemma OneLetterCrc()
    ensures Crc([]) == 0 && Crc([0x61]) == 0xE8B7_BE43
  {
    EmptyCrc();
    EmptyRegister();
    assert Word(0x61) == 0x61 && [] + [0x61] == [0x61];
    hide Register;
    DigitStep([], 0x61, 0x61, 0xFFFF_FFFF, 0x1748_41BC);
  }
}
