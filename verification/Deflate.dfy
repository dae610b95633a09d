/**
  The DEFLATE format of RFC 1951 as a function from the bits of a compressed stream to the
  bytes it stands for.  Only real bits are read: anything that would reach past the end
  of the stream has no meaning.
*/
module Deflate {
  import opened Numbers
  import opened BitStream
  import opened Huffman

  /** What a decoding step yields: the output so far and the next bit position. */
  type Progress = Option<(seq<Byte>, nat)>

  // ---- Lengths and distances (section 3.2.5) ----

  function LengthExtra(c: nat): nat {
    if c < 8 || c == 28 then 0 else c / 4 - 1
  }

  function LengthBase(c: nat): nat {
    if c < 8 then 3 + c else if c == 28 then 258 else 3 + Shl(4 + c % 4, c / 4 - 1)
  }

  function DistanceExtra(c: nat): nat {
    if c < 2 then 0 else c / 2 - 1
  }

  function DistanceBase(c: nat): nat {
    if c < 2 then c + 1 else 1 + Shl(2 + c % 2, c / 2 - 1)
  }

  // ---- The fixed codes (section 3.2.6) ----

  function FixedLiteral(s: nat): nat {
    if s < 144 then 8 else if s < 256 then 9 else if s < 280 then 7 else 8
  }

  function FixedLiterals(): (r: seq<nat>)
    ensures |r| == 288 && forall i :: 0 <= i < 288 ==> r[i] == FixedLiteral(i)
  {
    seq(288, (i: nat) => FixedLiteral(i))
  }

  function FixedDistances(): (r: seq<nat>)
    ensures |r| == 32 && forall i :: 0 <= i < 32 ==> r[i] == 5
  {
    seq(32, (i: nat) => 5)
  }

  // ---- Compressed data (section 3.2.3) ----

  /** Copy n bytes from d bytes back, one at a time, so that the source may overlap the copy. */
  function CopyBack(out: seq<Byte>, d: nat, n: nat): (r: seq<Byte>)
    requires 0 < d <= |out|
    ensures |r| == |out| + n && r[..|out|] == out
    ensures forall i :: |out| <= i < |r| ==> r[i] == r[i - d]
    decreases n
  {
    if n == 0 then out
    else
      var r := CopyBack(out, d, n - 1);
      r + [r[|r| - d]]
  }

  /** A length code c followed by its extra bits, a distance code and its extra bits. */
  ghost function ReadMatch(bits: seq<Bit>, p: nat, c: nat, dl: seq<nat>): (r: Option<(nat, nat, nat)>)
    ensures r.Some? ==> p < r.value.2 <= |bits| && r.value.1 > 0
  {
    var q := p + LengthExtra(c);
    if q > |bits| then None else
    var length := LengthBase(c) + Window(bits, p, LengthExtra(c));
    match DecodeSymbol(bits, q, dl)
    case None => None
    case Some((d, q1)) =>
      if d > 29 then None else
      var q2 := q1 + DistanceExtra(d);
      if q2 > |bits| then None else
      Some((length, DistanceBase(d) + Window(bits, q1, DistanceExtra(d)), q2))
  }

  /** The symbols of a compressed block, up to and including the end-of-block symbol 256. */
  ghost function Symbols(bits: seq<Bit>, p: nat, ll: seq<nat>, dl: seq<nat>, out: seq<Byte>): (r: Progress)
    ensures r.Some? ==> out <= r.value.0 && p < r.value.1 <= |bits|
    decreases |bits| - p
  {
    match DecodeSymbol(bits, p, ll)
    case None => None
    case Some((s, p1)) =>
      if s < 256 then Symbols(bits, p1, ll, dl, out + [s])
      else if s == 256 then Some((out, p1))
      else if s > 285 then None
      else
        match ReadMatch(bits, p1, s - 257, dl)
        case None => None
        case Some((length, distance, p2)) =>
          if distance > |out| then None
          else Symbols(bits, p2, ll, dl, CopyBack(out, distance, length))
  }

  // ---- Dynamic codes (section 3.2.7) ----

  const CODE_LENGTH_ORDER: seq<nat> :=
    [16, 17, 18, 0, 8, 7, 9, 6, 10, 5, 11, 4, 12, 3, 13, 2, 14, 1, 15]

  /** Place of symbol s in CODE_LENGTH_ORDER. */
  function OrderIndex(s: nat): nat {
    if s >= 16 then s - 16
    else if s == 0 then 3
    else if s >= 8 then 2 * s - 12
    else 19 - 2 * s
  }

  /** The lengths of the code length code: n three-bit numbers in the transmitted order. */
  function CodeLengthLengths(bits: seq<Bit>, p: nat, n: nat): (r: seq<nat>)
    ensures |r| == 19
  {
    seq(19, (s: nat) => if OrderIndex(s) < n then Window(bits, p + 3 * OrderIndex(s), 3) else 0)
  }

  function Repeat(x: nat, n: nat): (r: seq<nat>)
    ensures |r| == n && forall i :: 0 <= i < n ==> r[i] == x
  {
    seq(n, (i: nat) => x)
  }

  /** The meaning of a code length symbol: extra bits, least number of repetitions, and the length
      repeated (0 to 15 stand for themselves, 16 repeats the previous length, 17 and 18 repeat zero). */
  function RunExtra(s: nat): nat {
    if s < 16 then 0 else if s == 16 then 2 else if s == 17 then 3 else 7
  }

  function RunLeast(s: nat): nat {
    if s < 16 then 1 else if s == 18 then 11 else 3
  }

  function RunLength(s: nat, acc: seq<nat>): nat
    requires s == 16 ==> acc != []
  {
    if s < 16 then s else if s == 16 then acc[|acc| - 1] else 0
  }

  /** Complete acc to n code lengths. */
  ghost function Lengths(bits: seq<Bit>, p: nat, cl: seq<nat>, n: nat, acc: seq<nat>): (r: Option<(seq<nat>, nat)>)
    ensures r.Some? ==> |r.value.0| == n && p <= r.value.1 <= |bits|
    decreases |bits| - p
  {
    if p > |bits| || |acc| > n then None
    else if |acc| == n then Some((acc, p))
    else
      match DecodeSymbol(bits, p, cl)
      case None => None
      case Some((s, p1)) =>
        if s == 16 && acc == [] then None
        else
          var run := Repeat(RunLength(s, acc), RunLeast(s) + Window(bits, p1, RunExtra(s)));
          Lengths(bits, p1 + RunExtra(s), cl, n, acc + run)
  }

  /** All code lengths of a dynamic block, the number of those that are literal/length codes, and
      the position after them. */
  ghost function DynamicLengths(bits: seq<Bit>, p: nat): (r: Option<(seq<nat>, nat, nat)>)
    ensures r.Some? ==> p <= r.value.2 <= |bits| && 257 <= r.value.1 <= |r.value.0|
  {
    if p + 14 > |bits| then None else
    var hlit := 257 + Window(bits, p, 5);
    var hdist := 1 + Window(bits, p + 5, 5);
    var hclen := 4 + Window(bits, p + 10, 4);
    if hlit > 286 || hdist > 30 || p + 14 + 3 * hclen > |bits| then None else
    var cl := CodeLengthLengths(bits, p + 14, hclen);
    if !ValidCode(cl) || MaxSym(cl) < 0 then None else
    match Lengths(bits, p + 14 + 3 * hclen, cl, hlit + hdist, [])
    case None => None
    case Some((all, q)) => Some((all, hlit, q))
  }

  /** The two codes of a dynamic block and the position of its data. */
  ghost function DynamicCodes(bits: seq<Bit>, p: nat): (r: Option<(seq<nat>, seq<nat>, nat)>)
    ensures r.Some? ==> p <= r.value.2 <= |bits|
  {
    match DynamicLengths(bits, p)
    case None => None
    case Some((all, hlit, q)) =>
      var ll, dl := all[..hlit], all[hlit..];
      if ll[256] == 0 || !ValidCode(ll) || !ValidCode(dl) then None
      else Some((ll, dl, q))
  }

  // ---- Blocks (sections 3.2.3 and 3.2.4) ----

  function Le16(src: seq<Byte>, k: nat): nat
    requires k + 2 <= |src|
  {
    src[k] as int + 256 * (src[k + 1] as int)
  }

  /** A stored block starts at the next byte boundary. */
  function Stored(src: seq<Byte>, p: nat, out: seq<Byte>): (r: Progress)
    ensures r.Some? ==> out <= r.value.0 && p <= r.value.1 <= 8 * |src|
  {
    var k := (p + 7) / 8;
    if k + 4 > |src| then None else
    var len := Le16(src, k);
    if Le16(src, k + 2) != 65535 - len || k + 4 + len > |src| then None
    else Some((out + src[k + 4..k + 4 + len], 8 * (k + 4 + len)))
  }

  ghost function Block(src: seq<Byte>, p: nat, btype: nat, out: seq<Byte>): (r: Progress)
    ensures r.Some? ==> out <= r.value.0 && p <= r.value.1 <= 8 * |src|
  {
    if btype == 0 then Stored(src, p, out)
    else if btype == 1 then Symbols(ToBits(src), p, FixedLiterals(), FixedDistances(), out)
    else if btype == 2 then
      match DynamicCodes(ToBits(src), p)
      case None => None
      case Some((ll, dl, q)) => Symbols(ToBits(src), q, ll, dl, out)
    else None
  }

  /** Blocks up to and including the one marked final. */
  ghost function Blocks(src: seq<Byte>, p: nat, out: seq<Byte>): (r: Progress)
    ensures r.Some? ==> out <= r.value.0 && p + 3 <= r.value.1 <= 8 * |src|
    decreases 8 * |src| - p
  {
    if p + 3 > 8 * |src| then None else
    match Block(src, p + 3, Window(ToBits(src), p + 1, 2), out)
    case None => None
    case Some((o, q)) =>
      if Window(ToBits(src), p, 1) == 1 then Some((o, q)) else Blocks(src, q, o)
  }

  /** The bytes a DEFLATE stream stands for. */
  ghost function Inflate(src: seq<Byte>): Option<seq<Byte>> {
    match Blocks(src, 0, [])
    case None => None
    case Some((out, _)) => Some(out)
  }

  /** OrderIndex is the inverse of the transmitted order. */
  lemma OrderIndexInverse(i: nat, s: nat)
    requires i < 19 && s < 19
    ensures CODE_LENGTH_ORDER[i] < 19
    ensures OrderIndex(s) == i <==> CODE_LENGTH_ORDER[i] == s
  {
  }
}
