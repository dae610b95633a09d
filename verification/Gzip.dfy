/** The gzip member format (sections 2.3 and 8 of RFC 1952) and the kernel's reader for it. */
module Gzip {
  import opened Numbers
  import opened Deflate
  import opened TreeBuilding
  import opened Crc32
  import Inflating

  // ---- The format ----

  function Le32(src: seq<Byte>, k: nat): (r: nat)
    requires k + 4 <= |src|
    ensures r < 0x1_0000_0000
  {
    Le16(src, k) + 65536 * Le16(src, k + 2)
  }

  /** A register as a number. */
  function Number(c: bv32): (n: nat)
    ensures n < 0x1_0000_0000
  {
    c as nat
  }

  lemma LowFits(c: bv32)
    ensures c & 0xFFFF < 0x1_0000
  {
  }

  /** Its low half as a number. */
  function LowNumber(c: bv32): (n: nat)
    ensures n < 65536
  {
    LowFits(c);
    ((c & 0xFFFF) as bv16) as nat
  }

  predicate FlagBit(flg: Byte, k: nat) {
    Shr(flg, k) % 2 == 1
  }

  predicate Magic(src: seq<Byte>) {
    |src| >= 2 && src[0] == 0x1F && src[1] == 0x8B
  }

  /** Position after the zero-terminated string at k. */
  function AfterString(src: seq<Byte>, k: nat): (r: Option<nat>)
    ensures r.Some? ==> k < r.value <= |src|
    decreases |src| - k
  {
    if k >= |src| then None else if src[k] == 0 then Some(k + 1) else AfterString(src, k + 1)
  }

  function AfterExtra(src: seq<Byte>, flg: Byte): (r: Option<nat>)
    requires |src| >= 12
    ensures r.Some? ==> 10 <= r.value <= |src|
  {
    if !FlagBit(flg, 2) then Some(10)
    else if 12 + Le16(src, 10) > |src| then None else Some(12 + Le16(src, 10))
  }

  function AfterName(src: seq<Byte>, present: bool, k: Option<nat>): (r: Option<nat>)
    requires k.Some? ==> 10 <= k.value <= |src|
    ensures r.Some? ==> 10 <= r.value <= |src|
  {
    if present && k.Some? then AfterString(src, k.value) else k
  }

  function AfterHeaderCrc(src: seq<Byte>, present: bool, k: Option<nat>): (r: Option<nat>)
    requires k.Some? ==> 10 <= k.value <= |src|
    ensures r.Some? ==> 10 <= r.value <= |src|
  {
    if !present || k.None? then k
    else if k.value + 2 > |src| || Le16(src, k.value) != LowNumber(Crc(src[..k.value])) then None
    else Some(k.value + 2)
  }

  /** Where the compressed data starts: after the ten fixed bytes and the optional fields the
      flags announce, in the order FEXTRA, FNAME, FCOMMENT, FHCRC. */
  function BodyStart(src: seq<Byte>): (r: Option<nat>)
    ensures r.Some? ==> 10 <= r.value <= |src|
  {
    if |src| < 18 || !Magic(src) || src[2] != 8 || Shr(src[3], 5) != 0 then None
    else
      var flg := src[3];
      var a := AfterExtra(src, flg);
      var b := AfterName(src, FlagBit(flg, 3), a);
      var c := AfterName(src, FlagBit(flg, 4), b);
      AfterHeaderCrc(src, FlagBit(flg, 1), c)
  }

  /** The bytes a gzip member stands for: the inflated body, if length and CRC agree with the trailer. */
  ghost function Gunzip(src: seq<Byte>): Option<seq<Byte>> {
    match BodyStart(src)
    case None => None
    case Some(k) =>
      if k + 8 > |src| then None else
      match Inflate(src[k..|src| - 8])
      case None => None
      case Some(out) =>
        if |out| == Le32(src, |src| - 4) && Number(Crc(out)) == Le32(src, |src| - 8) then Some(out) else None
  }

  // ---- The reader ----

  lemma {:induction false} AndShifted(x: nat, y: nat, n: nat)
    ensures And(x, Shl(y, n)) != 0 <==> And(Shr(x, n), y) != 0
  {
    if n > 0 {
      AndShifted(x / 2, y, n - 1);
    }
  }

  /** Testing a flag with a mask. */
  lemma FlagMask(flg: Byte, k: nat, mask: nat)
    requires mask == Shl(1, k)
    ensures And(flg, mask) != 0 <==> FlagBit(flg, k)
  {
    AndShifted(flg, 1, k);
    assert And(Shr(flg, k) / 2, 0) == 0;
  }

  lemma FlagMasks(flg: Byte)
    ensures And(flg, 4) != 0 <==> FlagBit(flg, 2)
    ensures And(flg, 8) != 0 <==> FlagBit(flg, 3)
    ensures And(flg, 16) != 0 <==> FlagBit(flg, 4)
    ensures And(flg, 2) != 0 <==> FlagBit(flg, 1)
  {
    assert Shl(1, 1) == 2 && Shl(1, 2) == 4 && Shl(1, 3) == 8 && Shl(1, 4) == 16;
    hide And, FlagBit;
    FlagMask(flg, 1, 2);
    FlagMask(flg, 2, 4);
    FlagMask(flg, 3, 8);
    FlagMask(flg, 4, 16);
  }

  lemma ReservedMask(flg: Byte)
    ensures And(flg, 0xE0) != 0 <==> Shr(flg, 5) != 0
  {
    assert Shl(7, 2) == 28 && Shl(7, 5) == 0xE0;
    AndShifted(flg, 7, 5);
    var z := Shr(flg, 5);
    ShrSmall(flg, 5, 3);
    if z != 0 {
      assert And(z, 7) == 2 * And(z / 2, 3) + z % 2;
      assert And(z / 2, 3) == z / 2 by { assert And(z / 4, 1) == z / 4; }
    }
  }

  lemma {:induction false} ShrSmall(x: nat, n: nat, m: nat)
    requires x < Pow2(n + m)
    ensures Shr(x, n) < Pow2(m)
  {
    if n > 0 {
      ShrSmall(x / 2, n - 1, m);
    }
  }

  method SkipString(src: seq<Byte>, from: nat) returns (ok: bool, start: nat)
    requires from <= |src|
    ensures AfterString(src, from) == if ok then Some(start) else None
  {
    start := from;
    while true
      invariant start <= |src| && AfterString(src, start) == AfterString(src, from)
      decreases |src| - start
    {
      if start >= |src| {
        return false, start;
      }
      start := start + 1;
      if src[start - 1] == 0 {
        return true, start;
      }
    }
  }

  /** Where the compressed data starts, as tinf_gzip_uncompress finds it. */
  method FindBody(src: seq<Byte>) returns (ok: bool, start: nat)
    ensures BodyStart(src) == if ok then Some(start) else None
    ensures ok ==> |src| >= 18
  {
    hide And, FlagBit, AfterString, Crc32.Crc, LowNumber, Shr;
    start := 0;
    if |src| < 18 || src[0] != 0x1F || src[1] != 0x8B || src[2] != 8 {
      return false, start;
    }
    var flg := src[3];
    ReservedMask(flg);
    FlagMasks(flg);
    if And(flg, 0xE0) != 0 {
      return false, start;
    }
    start := 10;
    if And(flg, 4) != 0 {
      var xlen := Le16(src, start);
      if xlen > |src| - 12 {
        return false, start;
      }
      start := start + xlen + 2;
    }
    if And(flg, 8) != 0 {
      ok, start := SkipString(src, start);
      if !ok {
        return;
      }
    }
    if And(flg, 16) != 0 {
      ok, start := SkipString(src, start);
      if !ok {
        return;
      }
    }
    if And(flg, 2) != 0 {
      ok := CheckHeaderCrc(src, start);
      if !ok {
        return;
      }
      start := start + 2;
    }
    ok := true;
  }

  method CheckHeaderCrc(src: seq<Byte>, start: nat) returns (ok: bool)
    requires start <= |src| && |src| >= 2
    ensures ok <==> start + 2 <= |src| && Le16(src, start) == LowNumber(Crc(src[..start]))
  {
    hide Crc32.Crc, LowNumber;
    if start > |src| - 2 {
      return false;
    }
    var hcrc := Le16(src, start);
    var crc := ComputeCrc(src[..start]);
    ok := hcrc == LowNumber(crc);
  }

  /** tinf_gzip_uncompress. */
  method GzipUncompress(dest: array<Byte>, src: seq<Byte>) returns (res: Status, destLen: nat)
    requires dest.Length < 0x8000_0000
    modifies dest
    ensures destLen <= dest.Length
    ensures res == Ok ==> Gunzip(src) == Some(dest[..destLen])
    ensures res == InvalidData ==> Gunzip(src).None?
    ensures res == OutputOverflow ==> Gunzip(src).None? || |Gunzip(src).value| > dest.Length
  {
    hide BodyStart, Inflate, Crc32.Crc, Number;
    destLen := dest.Length;
    var ok, start := FindBody(src);
    if !ok {
      return InvalidData, destLen;
    }
    var dlen := Le32(src, |src| - 4);
    var crc32 := Le32(src, |src| - 8);
    if dlen > destLen {
      return OutputOverflow, destLen;
    }
    if |src| - start < 8 {
      return InvalidData, destLen;
    }
    res, destLen := Inflating.Uncompress(dest, src[start..|src| - 8]);
    if res != Ok {
      return;
    }
    if destLen != dlen {
      return InvalidData, destLen;
    }
    var crc := ComputeCrc(dest[..dlen]);
    if crc32 != Number(crc) {
      return InvalidData, destLen;
    }
  }

  /** What tinflate_decompress promises to undo: gzip if the magic is there, bare DEFLATE otherwise. */
  ghost function Decompressed(src: seq<Byte>): Option<seq<Byte>> {
    if Magic(src) then Gunzip(src) else Inflate(src)
  }

  /** tinflate_decompress: Ok exactly when the input stands for something that fits, and then the
      destination holds it; too long an output is reported as such. */
  method Decompress(src: seq<Byte>, dst: array<Byte>) returns (res: Status, outLen: nat)
    requires dst.Length < 0x8000_0000
    modifies dst
    ensures outLen <= dst.Length
    ensures res == Ok <==> Decompressed(src).Some? && |Decompressed(src).value| <= dst.Length
    ensures res == Ok ==> Decompressed(src) == Some(dst[..outLen])
    ensures Decompressed(src).Some? && |Decompressed(src).value| > dst.Length ==> res == OutputOverflow
  {
    hide Gunzip, Inflate;
    if |src| >= 2 && src[0] == 0x1F && src[1] == 0x8B {
      res, outLen := GzipUncompress(dst, src);
    } else {
      res, outLen := Inflating.Uncompress(dst, src);
    }
  }
}
