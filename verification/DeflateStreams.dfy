/** Whole encoded streams: any mix of stored, fixed and dynamic blocks, packed into bytes. */
module DeflateStreams {
  import opened Numbers
  import opened BitStream
  import opened Huffman
  import opened Deflate
  import opened DeflateEncoding

  datatype Chunk =
    | Raw(data: seq<Byte>)
    | Fixed(tokens: seq<Token>)
    | Dynamic(ll: seq<nat>, dl: seq<nat>, cl: seq<nat>, runs: seq<Run>, tokens: seq<Token>)

  // ---- Stored blocks ----

  /** Zero bits up to the next byte boundary. */
  function PadBits(p: nat): (r: seq<Bit>)
    ensures (p + |r|) % 8 == 0 && p + |r| == (p + 7) / 8 * 8
  {
    seq((p + 7) / 8 * 8 - p, _ => 0)
  }

  function LengthBytes(n: nat): (r: seq<Byte>)
    requires n <= 65535
    ensures |r| == 4
  {
    [n % 256, n / 256, (65535 - n) % 256, (65535 - n) / 256]
  }

  lemma {:induction false} WindowSame(bits: seq<Bit>, p: nat, part: seq<Bit>, i: nat, n: nat)
    requires At(bits, p, part) && i + n <= |part|
    ensures Window(bits, p + i, n) == Window(part, i, n)
    decreases n
  {
    if n > 0 {
      WindowSame(bits, p, part, i + 1, n - 1);
      assert bits[p..p + |part|][i] == part[i];
      assert p + i + 1 == p + (i + 1);
    }
  }

  lemma ByteAt(src: seq<Byte>, k: nat, x: seq<Byte>, j: nat)
    requires At(ToBits(src), 8 * k, ToBits(x)) && j < |x| && k + j < |src|
    ensures src[k + j] == x[j]
  {
    hide At, ToBits, Window;
    var p, i, bits, part := 8 * k, 8 * j, ToBits(src), ToBits(x);
    assert i + 8 <= |part|;
    WindowSame(bits, p, part, i, 8);
    ByteWindow(src, k + j, p + i);
    ByteWindow(x, j, i);
  }

  lemma ByteWindow(src: seq<Byte>, k: nat, p: nat)
    requires k < |src| && p == 8 * k
    ensures Window(ToBits(src), p, 8) == src[k]
  {
    hide ToBits, Window;
    WindowByte(src, k);
  }

  /** Bits that encode bytes, at a byte boundary, are those bytes. */
  lemma {:induction false} BytesAt(src: seq<Byte>, k: nat, x: seq<Byte>)
    requires At(ToBits(src), 8 * k, ToBits(x))
    ensures k + |x| <= |src| && src[k..k + |x|] == x
  {
    hide At, ByteBits;
    AtInside(ToBits(src), 8 * k, ToBits(x));
    if x != [] {
      var n := |x| - 1;
      AtSplit(ToBits(src), 8 * k, ToBits(x[..n]), ByteBits(x[n]));
      BytesAt(src, k, x[..n]);
      ByteAt(src, k, x, n);
      NextByte(src, k, x);
    }
  }

  lemma NextByte(src: seq<Byte>, k: nat, x: seq<Byte>)
    requires x != [] && k + |x| <= |src| && src[k..k + (|x| - 1)] == x[..|x| - 1] && src[k + (|x| - 1)] == x[|x| - 1]
    ensures src[k..k + |x|] == x
  {
    assert src[k..k + |x|] == src[k..k + (|x| - 1)] + [src[k + (|x| - 1)]];
  }

  lemma LengthBytesRead(n: nat)
    requires n <= 65535
    ensures Le16(LengthBytes(n), 0) == n && Le16(LengthBytes(n), 2) == 65535 - n
  {
  }

  function RawBits(q: nat, data: seq<Byte>): seq<Bit>
    requires |data| <= 65535
  {
    PadBits(q) + ToBits(LengthBytes(|data|) + data)
  }

  lemma RawReads(src: seq<Byte>, q: nat, data: seq<Byte>, out: seq<Byte>)
    requires |data| <= 65535 && At(ToBits(src), q, RawBits(q, data))
    ensures Stored(src, q, out) == Some((out + data, q + |RawBits(q, data)|))
  {
    hide ToBits, LengthBytes, At;
    var k, x := (q + 7) / 8, LengthBytes(|data|) + data;
    AtSplit(ToBits(src), q, PadBits(q), ToBits(x));
    assert q + |PadBits(q)| == 8 * k;
    BytesAt(src, k, x);
    LengthBytesRead(|data|);
    var y := src[k..k + |x|];
    assert y[0] == src[k] && y[1] == src[k + 1] && y[2] == src[k + 2] && y[3] == src[k + 3];
    assert x[0] == LengthBytes(|data|)[0] && x[1] == LengthBytes(|data|)[1];
    assert x[2] == LengthBytes(|data|)[2] && x[3] == LengthBytes(|data|)[3];
    assert src[k + 4..k + 4 + |data|] == y[4..] == data;
  }

  // ---- Dynamic blocks ----

  function LengthsBits(c: Chunk): seq<Bit>
    requires c.Dynamic? && |c.cl| == 19 && forall r :: r in c.runs ==> RunFits(r, c.cl)
  {
    OrderBits(c.cl, 0) + RunBits(c.runs, c.cl)
  }

  function CountBits(c: Chunk): seq<Bit>
    requires c.Dynamic? && 257 <= |c.ll| && 1 <= |c.dl|
  {
    ExtraDigits(|c.ll| - 257, 5) + (ExtraDigits(|c.dl| - 1, 5) + ExtraDigits(15, 4))
  }

  function HeaderBits(c: Chunk): seq<Bit>
    requires c.Dynamic? && 257 <= |c.ll| && 1 <= |c.dl| && |c.cl| == 19 && forall r :: r in c.runs ==> RunFits(r, c.cl)
  {
    CountBits(c) + LengthsBits(c)
  }

  /** The codes are ones the format accepts, and the runs spell them out. */
  ghost predicate HeaderWritable(c: Chunk) {
    && c.Dynamic? && 257 <= |c.ll| <= 286 && 1 <= |c.dl| <= 30 && c.ll[256] > 0 && ValidCode(c.ll) && ValidCode(c.dl)
    && |c.cl| == 19 && (forall s :: 0 <= s < 19 ==> c.cl[s] < 8) && ValidCode(c.cl) && MaxSym(c.cl) >= 0
    && RunsUsable(c.runs, c.cl) && Unrolled([], c.runs) == Some(c.ll + c.dl)
  }

  lemma CountsRead(bits: seq<Bit>, p: nat, c: Chunk)
    requires c.Dynamic? && 257 <= |c.ll| <= 286 && 1 <= |c.dl| <= 30 && At(bits, p, CountBits(c))
    ensures Window(bits, p, 5) == |c.ll| - 257 && Window(bits, p + 5, 5) == |c.dl| - 1 && Window(bits, p + 10, 4) == 15
    ensures |CountBits(c)| == 14
  {
    hide At, ExtraDigits, Window;
    var a, b, d := ExtraDigits(|c.ll| - 257, 5), ExtraDigits(|c.dl| - 1, 5), ExtraDigits(15, 4);
    assert Pow2(4) == 16 && Pow2(5) == 32;
    AtSplit(bits, p, a, b + d);
    AtSplit(bits, p + 5, b, d);
    ExtraReads(bits, p, |c.ll| - 257, 5);
    ExtraReads(bits, p + 5, |c.dl| - 1, 5);
    ExtraReads(bits, p + 10, 15, 4);
  }

  lemma LengthsRead(bits: seq<Bit>, p: nat, c: Chunk)
    requires HeaderWritable(c) && At(bits, p, LengthsBits(c))
    ensures CodeLengthLengths(bits, p, 19) == c.cl && p + 57 <= |bits|
    ensures Lengths(bits, p + 57, c.cl, |c.ll| + |c.dl|, []) == Some((c.ll + c.dl, p + |LengthsBits(c)|))
  {
    hide At, OrderBits, RunBits, Lengths, CodeLengthLengths, ValidCode, MaxSym;
    AtInside(bits, p, LengthsBits(c));
    AtSplit(bits, p, OrderBits(c.cl, 0), RunBits(c.runs, c.cl));
    OrderReadsAll(bits, p, c.cl);
    RunsRead(bits, p + 57, c.runs, c.cl, [], |c.ll| + |c.dl|);
  }

  lemma HeaderReads(bits: seq<Bit>, p: nat, c: Chunk)
    requires HeaderWritable(c) && At(bits, p, HeaderBits(c))
    ensures DynamicCodes(bits, p) == Some((c.ll, c.dl, p + |HeaderBits(c)|))
  {
    hide At, CountBits, LengthsBits, Lengths, CodeLengthLengths, ValidCode, MaxSym, Window;
    AtInside(bits, p, HeaderBits(c));
    AtSplit(bits, p, CountBits(c), LengthsBits(c));
    CountsRead(bits, p, c);
    LengthsRead(bits, p + 14, c);
    var all := c.ll + c.dl;
    assert all[..|c.ll|] == c.ll && all[|c.ll|..] == c.dl;
  }

  // ---- Blocks ----

  ghost predicate ChunkWritable(c: Chunk) {
    match c
    case Raw(data) => |data| <= 65535
    case Fixed(ts) => Writable(ts, FixedLiterals(), FixedDistances())
    case Dynamic(ll, dl, _, _, ts) => HeaderWritable(c) && Writable(ts, ll, dl)
  }

  /** What stands after the three header bits of a block, at position q. */
  ghost function BodyBits(q: nat, c: Chunk): seq<Bit>
    requires ChunkWritable(c)
  {
    match c
    case Raw(data) => RawBits(q, data)
    case Fixed(ts) => DataBits(ts, FixedLiterals(), FixedDistances())
    case Dynamic(ll, dl, _, _, ts) => HeaderBits(c) + DataBits(ts, ll, dl)
  }

  function BlockType(c: Chunk): (t: nat)
    ensures t < 3
  {
    match c
    case Raw(_) => 0
    case Fixed(_) => 1
    case Dynamic(_, _, _, _, _) => 2
  }

  function ChunkMeaning(out: seq<Byte>, c: Chunk): Option<seq<Byte>> {
    if c.Raw? then Some(out + c.data) else Meaning(out, c.tokens)
  }

  lemma DynamicReads(bits: seq<Bit>, q: nat, c: Chunk, out: seq<Byte>)
    requires c.Dynamic? && ChunkWritable(c) && At(bits, q, BodyBits(q, c)) && Meaning(out, c.tokens).Some?
    ensures DynamicCodes(bits, q) == Some((c.ll, c.dl, q + |HeaderBits(c)|))
    ensures Symbols(bits, q + |HeaderBits(c)|, c.ll, c.dl, out) ==
            Some((Meaning(out, c.tokens).value, q + |BodyBits(q, c)|))
  {
    hide At, DataBits, HeaderBits, Symbols, DynamicCodes, Meaning, ValidCode, MaxSym, Unrolled;
    AtSplit(bits, q, HeaderBits(c), DataBits(c.tokens, c.ll, c.dl));
    HeaderReads(bits, q, c);
    DataReads(bits, q + |HeaderBits(c)|, c.tokens, c.ll, c.dl, out);
  }

  /** Decoding the body at q appends what the block means and stops at end. */
  ghost predicate Yields(src: seq<Byte>, q: nat, c: Chunk, out: seq<Byte>, end: nat)
    requires ChunkMeaning(out, c).Some?
  {
    Block(src, q, BlockType(c), out) == Some((ChunkMeaning(out, c).value, end))
  }

  lemma BodyReads(src: seq<Byte>, q: nat, c: Chunk, out: seq<Byte>)
    requires ChunkWritable(c) && At(ToBits(src), q, BodyBits(q, c)) && ChunkMeaning(out, c).Some?
    ensures Yields(src, q, c, out, q + |BodyBits(q, c)|)
  {
    hide At, ToBits, RawBits, DataBits, HeaderBits, Stored, Symbols, DynamicCodes, Meaning, FixedLiterals,
      FixedDistances, Writable, HeaderWritable;
    match c
    case Raw(data) => RawReads(src, q, data, out);
    case Fixed(ts) => DataReads(ToBits(src), q, ts, FixedLiterals(), FixedDistances(), out);
    case Dynamic(ll, dl, _, _, ts) => DynamicReads(ToBits(src), q, c, out);
  }

  function Flag(last: bool): nat {
    if last then 1 else 0
  }

  /** A block at position p: final bit, type, body. */
  ghost function ChunkBits(p: nat, c: Chunk, last: bool): seq<Bit>
    requires ChunkWritable(c)
  {
    ExtraDigits(Flag(last), 1) + (ExtraDigits(BlockType(c), 2) + BodyBits(p + 3, c))
  }

  ghost function StreamBits(p: nat, cs: seq<Chunk>): seq<Bit>
    requires cs != [] && forall c :: c in cs ==> ChunkWritable(c)
    decreases |cs|
  {
    assert cs[0] in cs;
    var first := ChunkBits(p, cs[0], |cs| == 1);
    if |cs| == 1 then first else first + StreamBits(p + |first|, cs[1..])
  }

  function StreamMeaning(out: seq<Byte>, cs: seq<Chunk>): Option<seq<Byte>>
    decreases |cs|
  {
    if cs == [] then Some(out)
    else
      match ChunkMeaning(out, cs[0])
      case None => None
      case Some(o) => StreamMeaning(o, cs[1..])
  }

  lemma ChunkReads(src: seq<Byte>, p: nat, c: Chunk, last: bool, out: seq<Byte>)
    requires ChunkWritable(c) && At(ToBits(src), p, ChunkBits(p, c, last)) && ChunkMeaning(out, c).Some?
    ensures p + 3 <= 8 * |src| && Window(ToBits(src), p, 1) == Flag(last)
    ensures Window(ToBits(src), p + 1, 2) == BlockType(c)
    ensures Yields(src, p + 3, c, out, p + |ChunkBits(p, c, last)|)
  {
    hide *;
    ChunkHead(ToBits(src), p, c, last);
    BodyReads(src, p + 3, c, out);
    assert |ToBits(src)| == 8 * |src|;
  }

  lemma ChunkHead(bits: seq<Bit>, p: nat, c: Chunk, last: bool)
    requires ChunkWritable(c) && At(bits, p, ChunkBits(p, c, last))
    ensures p + 3 <= |bits| && Window(bits, p, 1) == Flag(last) && Window(bits, p + 1, 2) == BlockType(c)
    ensures At(bits, p + 3, BodyBits(p + 3, c)) && |ChunkBits(p, c, last)| == 3 + |BodyBits(p + 3, c)|
  {
    hide At, BodyBits, ExtraDigits, Window, ChunkWritable, BlockType;
    HeadReads(bits, p, Flag(last), BlockType(c), BodyBits(p + 3, c));
  }

  lemma HeadReads(bits: seq<Bit>, p: nat, f: nat, t: nat, body: seq<Bit>)
    requires f < 2 && t < 4 && At(bits, p, ExtraDigits(f, 1) + (ExtraDigits(t, 2) + body))
    ensures p + 3 <= |bits| && Window(bits, p, 1) == f && Window(bits, p + 1, 2) == t && At(bits, p + 3, body)
    ensures |ExtraDigits(f, 1) + (ExtraDigits(t, 2) + body)| == 3 + |body|
  {
    hide At, ExtraDigits, Window;
    assert Pow2(1) == 2 && Pow2(2) == 4;
    var a, b := ExtraDigits(f, 1), ExtraDigits(t, 2);
    AtSplit(bits, p, a, b + body);
    ExtraReads(bits, p, f, 1);
    AtSplit(bits, p + 1, b, body);
    ExtraReads(bits, p + 1, t, 2);
    AtInside(bits, p + 1, b);
  }

  /** Reading an encoded stream gives what its blocks mean, one after the other. */
  lemma {:induction false} StreamReads(src: seq<Byte>, p: nat, cs: seq<Chunk>, out: seq<Byte>)
    requires cs != [] && (forall c :: c in cs ==> ChunkWritable(c)) && At(ToBits(src), p, StreamBits(p, cs))
    requires StreamMeaning(out, cs).Some?
    ensures Blocks(src, p, out) == Some((StreamMeaning(out, cs).value, p + |StreamBits(p, cs)|))
    decreases |cs|
  {
    hide At, ToBits, ChunkBits, Block, ChunkMeaning, Window, ChunkWritable, BlockType;
    assert cs[0] in cs;
    var first := ChunkBits(p, cs[0], |cs| == 1);
    if |cs| == 1 {
      ChunkReads(src, p, cs[0], true, out);
      assert cs[1..] == [];
    } else {
      AtSplit(ToBits(src), p, first, StreamBits(p + |first|, cs[1..]));
      ChunkReads(src, p, cs[0], false, out);
      StreamReads(src, p + |first|, cs[1..], ChunkMeaning(out, cs[0]).value);
    }
  }

  // ---- Packing ----

  /** Eight bits to a byte, with zero bits to fill the last one. */
  function Pack(bits: seq<Bit>): (r: seq<Byte>)
    ensures |r| == (|bits| + 7) / 8
  {
    seq((|bits| + 7) / 8, (i: nat) => PackedByte(bits, i))
  }

  function PackedByte(bits: seq<Bit>, i: nat): Byte {
    WindowBound(bits, 8 * i, 8);
    assert Pow2(8) == 256;
    Window(bits, 8 * i, 8)
  }

  lemma PackedBit(bits: seq<Bit>, k: nat)
    requires k < |bits|
    ensures |ToBits(Pack(bits))| >= |bits| && ToBits(Pack(bits))[k] == bits[k]
  {
    hide Window, ToBits, Shr;
    var i, j := k / 8, k % 8;
    BitOfByte(Pack(bits), i, j);
    WindowTake(bits, 8 * i, j, 8);
    WindowFirst(bits, k, 8 - j);
  }

  lemma WindowFirst(bits: seq<Bit>, p: nat, n: nat)
    requires n > 0
    ensures Window(bits, p, n) % 2 == BitAt(bits, p)
  {
  }

  /** Every stream this encoder writes, in any mix of block types and with any acceptable codes,
      inflates to what was encoded. */
  lemma InflateInverts(cs: seq<Chunk>)
    requires cs != [] && (forall c :: c in cs ==> ChunkWritable(c)) && StreamMeaning([], cs).Some?
    ensures Inflate(Pack(StreamBits(0, cs))) == StreamMeaning([], cs)
  {
    hide ToBits, Pack, StreamBits, StreamMeaning, ChunkWritable;
    var bits := StreamBits(0, cs);
    var src := Pack(bits);
    forall k | 0 <= k < |bits|
      ensures |ToBits(src)| >= |bits| && ToBits(src)[k] == bits[k]
    {
      PackedBit(bits, k);
    }
    assert At(ToBits(src), 0, bits);
    StreamReads(src, 0, cs, []);
  }
}
