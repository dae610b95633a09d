/** The bit reader of the decompressor: a byte cursor with a small lookahead buffer. */
module BitReading {
  import opened Numbers
  import opened BitStream

  class BitReader {
    const source: seq<Byte>
    ghost const bits: seq<Bit>
    var pos: nat
    var tag: nat
    var bitcount: nat
    var overflow: bool

    /** Bytes taken so far, counting the zero bytes made up after the end of the source. */
    ghost var loaded: nat

    /** The buffer holds exactly the bits between the reading position and the last byte taken. */
    ghost predicate Valid()
      reads this
    {
      && pos == Min(loaded, |source|)
      && overflow == (loaded > |source|)
      && bitcount <= 8 * loaded
      && bits == ToBits(source)
      && tag == Window(bits, 8 * loaded - bitcount, bitcount)
    }

    /** The state between reads: less than one byte is buffered. */
    ghost predicate Settled()
      reads this
    {
      Valid() && bitcount <= 7
    }

    /** The bit position the reader stands at. */
    ghost function At(): nat
      reads this
      requires Valid()
    {
      8 * loaded - bitcount
    }

    constructor (data: seq<Byte>)
      ensures source == data && Settled() && At() == 0
    {
      source := data;
      bits := ToBits(data);
      pos, tag, bitcount, overflow, loaded := 0, 0, 0, false, 0;
    }

    method Refill(num: nat)
      requires Settled() && num <= 16
      modifies this
      ensures Valid() && At() == old(At())
      ensures num <= bitcount <= Max(old(bitcount), num + 7)
    {
      hide Window, Or, Shl32;
      while bitcount < num
        invariant Valid() && At() == old(At()) && bitcount <= Max(old(bitcount), num + 7)
      {
        AppendByte(source, At(), bitcount, loaded);
        if pos != |source| {
          tag := Or(tag, Shl32(source[pos], bitcount));
          pos := pos + 1;
        } else {
          overflow := true;
        }
        bitcount := bitcount + 8;
        loaded := loaded + 1;
      }
    }

    method GetBitsNoRefill(num: nat) returns (value: nat)
      requires Valid() && num <= bitcount
      modifies this
      ensures Valid() && At() == old(At()) + num && bitcount == old(bitcount) - num
      ensures value == Window(bits, old(At()), num)
    {
      WindowTake(bits, At(), num, bitcount);
      value := And(tag, Pow2(num) - 1);
      tag := Shr(tag, num);
      bitcount := bitcount - num;
    }

    method GetBits(num: nat) returns (value: nat)
      requires Settled() && num <= 16
      modifies this
      ensures Settled() && At() == old(At()) + num
      ensures value == Window(bits, old(At()), num)
    {
      Refill(num);
      value := GetBitsNoRefill(num);
    }

    method GetBitsBase(num: nat, base: nat) returns (value: nat)
      requires Settled() && num <= 16
      modifies this
      ensures Settled() && At() == old(At()) + num
      ensures value == base + Window(bits, old(At()), num)
    {
      value := base;
      if num != 0 {
        value := GetBits(num);
        value := base + value;
      }
    }

    /** Zeroing the buffer before a stored block moves to the next byte boundary. */
    method Align()
      requires Settled()
      modifies this
      ensures Settled() && At() == 8 * ((old(At()) + 7) / 8) && bitcount == 0
    {
      bitcount := 0;
      tag := 0;
    }

    /** Take n bytes from the source on a byte boundary. */
    method SkipBytes(n: nat)
      requires Settled() && bitcount == 0 && pos + n <= |source| && !overflow
      modifies this
      ensures Settled() && bitcount == 0 && At() == old(At()) + 8 * n && pos == old(pos) + n
    {
      pos := pos + n;
      loaded := loaded + n;
    }

    /** Overflow is flagged exactly when a bit past the end has been read. */
    lemma OverflowMeansPastEnd()
      requires Settled()
      ensures overflow <==> At() > |bits|
    {
    }
  }

  /** Taking byte k of the source, when c bits are buffered, extends the buffer by eight bits. */
  lemma AppendByte(src: seq<Byte>, p: nat, c: nat, k: nat)
    requires c <= 16 && p + c == 8 * k
    ensures Window(ToBits(src), p, c + 8) ==
            if k < |src| then Or(Window(ToBits(src), p, c), Shl32(src[k], c)) else Window(ToBits(src), p, c)
  {
    WindowSplit(ToBits(src), p, c, 8);
    WindowByte(src, k);
    if k < |src| {
      WindowBound(ToBits(src), p, c);
      OrAbove(Window(ToBits(src), p, c), src[k], c);
      ShiftFits(src[k], c);
    } else {
      ShlZero(c);
    }
  }

  lemma ShiftFits(b: Byte, c: nat)
    requires c <= 16
    ensures Shl32(b, c) == Shl(b, c)
  {
    assert Pow2(8) == 256;
    ShlBound(b, 8, c);
    Pow2Monotone(8 + c, 24);
    assert Pow2(24) == 0x100_0000 by { Pow2Values(); assert Pow2(20) == 16 * Pow2(16); }
  }
}
