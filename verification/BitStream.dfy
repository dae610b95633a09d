/** The LSB-first bit string of a byte string (section 3.1.1 of RFC 1951). */
module BitStream {
  import opened Numbers

  type Bit = b: int | 0 <= b <= 1

  function ByteBits(b: Byte): seq<Bit> {
    seq(8, (i: nat) => (Shr(b, i) % 2) as Bit)
  }

  /** The bits of each byte, least significant first. */
  function ToBits(src: seq<Byte>): (r: seq<Bit>)
    ensures |r| == 8 * |src|
  {
    if src == [] then [] else ToBits(src[..|src| - 1]) + ByteBits(src[|src| - 1])
  }

  /** Bit k of the stream; a decoder that runs off the end sees zeros. */
  function BitAt(bits: seq<Bit>, k: nat): Bit {
    if k < |bits| then bits[k] else 0
  }

  /** The n-bit number at position p, least significant bit first. */
  function Window(bits: seq<Bit>, p: nat, n: nat): nat
    decreases n, bits
  {
    if n == 0 then 0 else BitAt(bits, p) + 2 * Window(bits, p + 1, n - 1)
  }

  /** The n-bit Huffman code at position p, most significant bit first. */
  function CodeBits(bits: seq<Bit>, p: nat, n: nat): nat {
    if n == 0 then 0 else 2 * CodeBits(bits, p, n - 1) + BitAt(bits, p + n - 1)
  }

  lemma {:induction false} WindowBound(bits: seq<Bit>, p: nat, n: nat)
    ensures Window(bits, p, n) < Pow2(n)
    decreases n
  {
    if n > 0 {
      WindowBound(bits, p + 1, n - 1);
    }
  }

  lemma {:induction false} CodeBitsBound(bits: seq<Bit>, p: nat, n: nat)
    ensures CodeBits(bits, p, n) < Pow2(n)
  {
    if n > 0 {
      CodeBitsBound(bits, p, n - 1);
    }
  }

  lemma {:induction false} WindowSplit(bits: seq<Bit>, p: nat, a: nat, b: nat)
    ensures Window(bits, p, a + b) == Window(bits, p, a) + Shl(Window(bits, p + a, b), a)
    decreases a
  {
    if a > 0 {
      WindowSplit(bits, p + 1, a - 1, b);
      assert p + 1 + (a - 1) == p + a && a - 1 + b == a + b - 1;
    }
  }

  /** Of c buffered bits, masking keeps the next n and shifting leaves the rest. */
  lemma {:induction false} WindowTake(bits: seq<Bit>, p: nat, n: nat, c: nat)
    requires n <= c
    ensures And(Window(bits, p, c), Pow2(n) - 1) == Window(bits, p, n)
    ensures Shr(Window(bits, p, c), n) == Window(bits, p + n, c - n)
    decreases n
  {
    if n > 0 {
      WindowTake(bits, p + 1, n - 1, c - 1);
      assert p + 1 + (n - 1) == p + n;
      assert (Pow2(n) - 1) / 2 == Pow2(n - 1) - 1 && (Pow2(n) - 1) % 2 == 1;
      var w := Window(bits, p, c);
      assert w / 2 == Window(bits, p + 1, c - 1) && w % 2 == BitAt(bits, p);
      if w == 0 {
        WindowZero(bits, p, n, c);
      }
    }
  }

  lemma {:induction false} WindowZero(bits: seq<Bit>, p: nat, n: nat, c: nat)
    requires n <= c && Window(bits, p, c) == 0
    ensures Window(bits, p, n) == 0
    decreases n
  {
    if n > 0 {
      WindowZero(bits, p + 1, n - 1, c - 1);
    }
  }

  /** Bits past the end are zero. */
  lemma {:induction false} WindowPastEnd(bits: seq<Bit>, p: nat, n: nat)
    requires p >= |bits|
    ensures Window(bits, p, n) == 0
    decreases n
  {
    if n > 0 {
      WindowPastEnd(bits, p + 1, n - 1);
    }
  }

  lemma {:induction false} BitOfByte(src: seq<Byte>, k: nat, i: nat)
    requires k < |src| && i < 8
    ensures BitAt(ToBits(src), 8 * k + i) == Shr(src[k], i) % 2
    decreases |src|
  {
    if k < |src| - 1 {
      BitOfByte(src[..|src| - 1], k, i);
    }
  }

  lemma {:induction false} WindowInByte(src: seq<Byte>, k: nat, i: nat, n: nat)
    requires i + n == 8 && k < |src|
    ensures Window(ToBits(src), 8 * k + i, n) == Shr(src[k], i)
    decreases n
  {
    if n == 0 {
      ByteExhausted(src[k]);
    } else {
      WindowInByte(src, k, i + 1, n - 1);
      ShrStep(src[k], i);
      BitOfByte(src, k, i);
    }
  }

  lemma ByteExhausted(b: Byte)
    ensures Shr(b, 8) == 0
  {
    ShrShrinks(b, 8);
    assert Pow2(8) == 256;
  }

  lemma {:induction false} ShrShrinks(x: nat, n: nat)
    requires x < Pow2(n)
    ensures Shr(x, n) == 0
  {
    if n > 0 {
      ShrShrinks(x / 2, n - 1);
    }
  }

  /** Eight bits on a byte boundary are that byte. */
  lemma WindowByte(src: seq<Byte>, k: nat)
    ensures Window(ToBits(src), 8 * k, 8) == if k < |src| then src[k] else 0
  {
    if k < |src| {
      WindowInByte(src, k, 0, 8);
    } else {
      WindowPastEnd(ToBits(src), 8 * k, 8);
    }
  }
}
