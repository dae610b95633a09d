/**
  An encoder for the DEFLATE format, as the inverse the decoder is measured against: literals and
  matches written with any pair of canonical codes, in stored, fixed or dynamic blocks, packed into bytes.
*/
module DeflateEncoding {
  import opened Numbers
  import opened BitStream
  import opened Huffman
  import opened Deflate

  /** A literal byte, or a match given by its length and distance codes and their extra bits. */
  datatype Token =
    | Literal(byte: Byte)
    | Match(lengthCode: nat, lengthBits: nat, distanceCode: nat, distanceBits: nat)
  {
    function Length(): nat
      requires Match?
    {
      LengthBase(lengthCode) + lengthBits
    }

    function Distance(): nat
      requires Match?
    {
      DistanceBase(distanceCode) + distanceBits
    }
  }

  // ---- Digits ----

  /** The n binary digits of v, most significant first. */
  function CodeDigits(v: nat, n: nat): (r: seq<Bit>)
    ensures |r| == n
  {
    if n == 0 then [] else CodeDigits(v / 2, n - 1) + [v % 2]
  }

  /** The n binary digits of v, least significant first. */
  function ExtraDigits(v: nat, n: nat): (r: seq<Bit>)
    ensures |r| == n
  {
    if n == 0 then [] else [v % 2] + ExtraDigits(v / 2, n - 1)
  }

  ghost predicate At(bits: seq<Bit>, p: nat, part: seq<Bit>) {
    p + |part| <= |bits| && bits[p..p + |part|] == part
  }

  lemma AtSplit(bits: seq<Bit>, p: nat, a: seq<Bit>, b: seq<Bit>)
    requires At(bits, p, a + b)
    ensures At(bits, p, a) && At(bits, p + |a|, b)
  {
    var s := bits[p..p + |a + b|];
    assert s[..|a|] == a && s[|a|..] == b;
    assert bits[p..p + |a|] == s[..|a|] && bits[p + |a|..p + |a| + |b|] == s[|a|..];
  }

  lemma {:induction false} CodeReads(bits: seq<Bit>, p: nat, v: nat, n: nat)
    requires v < Pow2(n) && At(bits, p, CodeDigits(v, n))
    ensures CodeBits(bits, p, n) == v
  {
    if n > 0 {
      AtSplit(bits, p, CodeDigits(v / 2, n - 1), [v % 2]);
      CodeReads(bits, p, v / 2, n - 1);
      assert bits[p + n - 1..p + n][0] == v % 2;
    }
  }

  lemma {:induction false} ExtraReads(bits: seq<Bit>, p: nat, v: nat, n: nat)
    requires v < Pow2(n) && At(bits, p, ExtraDigits(v, n))
    ensures Window(bits, p, n) == v
    decreases n
  {
    if n > 0 {
      AtSplit(bits, p, [v % 2], ExtraDigits(v / 2, n - 1));
      ExtraReads(bits, p + 1, v / 2, n - 1);
      assert bits[p..p + 1][0] == v % 2;
    }
  }

  // ---- Symbols ----

  function SymbolBits(lens: seq<nat>, s: nat): (r: seq<Bit>)
    requires s < |lens|
    ensures |r| == lens[s]
  {
    CodeDigits(Code(lens, s), lens[s])
  }

  ghost predicate Usable(lens: seq<nat>, s: nat) {
    Short(lens) && KraftSum(lens) <= Pow2(15) && s < |lens| && lens[s] > 0
  }

  /** The code of a used symbol fits its length. */
  lemma CodeFits(lens: seq<nat>, s: nat)
    requires Usable(lens, s)
    ensures Code(lens, s) < Pow2(lens[s])
  {
    LevelFits(lens, lens[s]);
    RankMonotone(lens, lens[s], s, |lens|);
  }

  lemma SymbolReads(bits: seq<Bit>, p: nat, lens: seq<nat>, s: nat)
    requires Usable(lens, s) && At(bits, p, SymbolBits(lens, s))
    ensures DecodeSymbol(bits, p, lens) == Some((s, p + lens[s]))
  {
    CodeFits(lens, s);
    CodeReads(bits, p, Code(lens, s), lens[s]);
    DecodeSymbolIs(bits, p, lens, s);
  }

  // ---- Tokens ----

  function TokenBits(t: Token, ll: seq<nat>, dl: seq<nat>): seq<Bit>
    requires TokenFits(t, ll, dl)
  {
    match t
    case Literal(b) => SymbolBits(ll, b)
    case Match(c, _, _, _) => SymbolBits(ll, 257 + c) + LengthBits(t, dl)
  }

  /** The extra bits of the length, then the distance. */
  function LengthBits(t: Token, dl: seq<nat>): seq<Bit>
    requires t.Match? && t.distanceCode < |dl|
  {
    ExtraDigits(t.lengthBits, LengthExtra(t.lengthCode)) + DistanceBits(t, dl)
  }

  function DistanceBits(t: Token, dl: seq<nat>): seq<Bit>
    requires t.Match? && t.distanceCode < |dl|
  {
    SymbolBits(dl, t.distanceCode) + ExtraDigits(t.distanceBits, DistanceExtra(t.distanceCode))
  }

  /** The symbols exist in the codes and the extra bits are in range. */
  predicate TokenFits(t: Token, ll: seq<nat>, dl: seq<nat>) {
    match t
    case Literal(b) => b < |ll|
    case Match(c, x, d, y) =>
      c <= 28 && 257 + c < |ll| && d <= 29 && d < |dl| && x < Pow2(LengthExtra(c)) && y < Pow2(DistanceExtra(d))
  }

  ghost predicate TokenUsable(t: Token, ll: seq<nat>, dl: seq<nat>) {
    && TokenFits(t, ll, dl)
    && match t
    case Literal(b) => Usable(ll, b)
    case Match(c, x, d, y) => Usable(ll, 257 + c) && Usable(dl, d)
  }

  lemma DistanceReads(bits: seq<Bit>, p: nat, t: Token, dl: seq<nat>)
    requires t.Match? && t.distanceCode < |dl| && t.distanceBits < Pow2(DistanceExtra(t.distanceCode)) &&
             Usable(dl, t.distanceCode)
    requires At(bits, p, DistanceBits(t, dl))
    ensures DecodeSymbol(bits, p, dl) == Some((t.distanceCode, p + dl[t.distanceCode]))
    ensures Window(bits, p + dl[t.distanceCode], DistanceExtra(t.distanceCode)) == t.distanceBits
    ensures |DistanceBits(t, dl)| == dl[t.distanceCode] + DistanceExtra(t.distanceCode)
  {
    hide At, SymbolBits, ExtraDigits, Window, DecodeSymbol, DistanceExtra, Usable;
    var s, e := SymbolBits(dl, t.distanceCode), ExtraDigits(t.distanceBits, DistanceExtra(t.distanceCode));
    AtSplit(bits, p, s, e);
    SymbolReads(bits, p, dl, t.distanceCode);
    ExtraReads(bits, p + |s|, t.distanceBits, DistanceExtra(t.distanceCode));
  }

  lemma LengthReads(bits: seq<Bit>, p: nat, t: Token, ll: seq<nat>, dl: seq<nat>)
    requires t.Match? && TokenUsable(t, ll, dl) && At(bits, p, LengthBits(t, dl))
    ensures ReadMatch(bits, p, t.lengthCode, dl) == Some((t.Length(), t.Distance(), p + |LengthBits(t, dl)|))
  {
    hide At, DistanceBits, ExtraDigits, Window, DecodeSymbol, LengthExtra, LengthBase, DistanceExtra,
      DistanceBase, Usable;
    var e := ExtraDigits(t.lengthBits, LengthExtra(t.lengthCode));
    AtInside(bits, p, LengthBits(t, dl));
    AtSplit(bits, p, e, DistanceBits(t, dl));
    ExtraReads(bits, p, t.lengthBits, LengthExtra(t.lengthCode));
    DistanceReads(bits, p + |e|, t, dl);
  }

  lemma MatchReads(bits: seq<Bit>, p: nat, t: Token, ll: seq<nat>, dl: seq<nat>)
    requires t.Match? && TokenUsable(t, ll, dl) && At(bits, p, TokenBits(t, ll, dl))
    ensures DecodeSymbol(bits, p, ll) == Some((257 + t.lengthCode, p + ll[257 + t.lengthCode]))
    ensures ReadMatch(bits, p + ll[257 + t.lengthCode], t.lengthCode, dl) ==
            Some((t.Length(), t.Distance(), p + |TokenBits(t, ll, dl)|))
  {
    hide At, SymbolBits, LengthBits, DecodeSymbol, ReadMatch, Usable;
    AtSplit(bits, p, SymbolBits(ll, 257 + t.lengthCode), LengthBits(t, dl));
    SymbolReads(bits, p, ll, 257 + t.lengthCode);
    LengthReads(bits, p + ll[257 + t.lengthCode], t, ll, dl);
  }

  lemma AtInside(bits: seq<Bit>, p: nat, part: seq<Bit>)
    requires At(bits, p, part)
    ensures p + |part| <= |bits|
  {
  }

  /** All tokens and the end-of-block symbol. */
  function DataBits(ts: seq<Token>, ll: seq<nat>, dl: seq<nat>): seq<Bit>
    requires |ll| > 256 && forall t :: t in ts ==> TokenFits(t, ll, dl)
  {
    if ts == [] then SymbolBits(ll, 256) else TokenBits(ts[0], ll, dl) + DataBits(ts[1..], ll, dl)
  }

  /** What the output becomes; a match must not reach back before its beginning. */
  function Meaning(out: seq<Byte>, ts: seq<Token>): Option<seq<Byte>>
    decreases |ts|
  {
    if ts == [] then Some(out)
    else
      match ts[0]
      case Literal(b) => Meaning(out + [b], ts[1..])
      case Match(_, _, _, _) =>
        if 0 < ts[0].Distance() <= |out| then Meaning(CopyBack(out, ts[0].Distance(), ts[0].Length()), ts[1..])
        else None
  }

  ghost predicate Writable(ts: seq<Token>, ll: seq<nat>, dl: seq<nat>) {
    |ll| > 256 && Usable(ll, 256) && forall t :: t in ts ==> TokenUsable(t, ll, dl)
  }

  lemma FirstToken(ts: seq<Token>, ll: seq<nat>, dl: seq<nat>)
    requires Writable(ts, ll, dl) && ts != []
    ensures TokenUsable(ts[0], ll, dl) && Writable(ts[1..], ll, dl)
  {
  }

  /** Reading the encoded tokens with the same codes gives what the tokens mean. */
  lemma {:induction false} DataReads(bits: seq<Bit>, p: nat, ts: seq<Token>, ll: seq<nat>, dl: seq<nat>, out: seq<Byte>)
    requires Writable(ts, ll, dl) && At(bits, p, DataBits(ts, ll, dl)) && Meaning(out, ts).Some?
    ensures Symbols(bits, p, ll, dl, out) == Some((Meaning(out, ts).value, p + |DataBits(ts, ll, dl)|))
    decreases |ts|
  {
    hide At, SymbolBits, TokenBits, DecodeSymbol, ReadMatch, CopyBack, LengthBase, DistanceBase, LengthExtra,
      DistanceExtra, Usable;
    if ts == [] {
      SymbolReads(bits, p, ll, 256);
    } else {
      FirstToken(ts, ll, dl);
      var t := ts[0];
      var first := TokenBits(t, ll, dl);
      AtSplit(bits, p, first, DataBits(ts[1..], ll, dl));
      if t.Literal? {
        LiteralReads(bits, p, t, ll, dl);
        DataReads(bits, p + |first|, ts[1..], ll, dl, out + [t.byte]);
      } else {
        MatchReads(bits, p, t, ll, dl);
        DataReads(bits, p + |first|, ts[1..], ll, dl, CopyBack(out, t.Distance(), t.Length()));
      }
    }
  }

  lemma LiteralReads(bits: seq<Bit>, p: nat, t: Token, ll: seq<nat>, dl: seq<nat>)
    requires t.Literal? && TokenUsable(t, ll, dl) && At(bits, p, TokenBits(t, ll, dl))
    ensures DecodeSymbol(bits, p, ll) == Some((t.byte, p + |TokenBits(t, ll, dl)|))
  {
    SymbolReads(bits, p, ll, t.byte);
  }

  // ---- Dynamic codes ----

  /** A code length symbol with its extra bits. */
  datatype Run = Run(symbol: nat, bits: nat)

  predicate RunFits(r: Run, cl: seq<nat>) {
    r.symbol < |cl| == 19 && r.bits < Pow2(RunExtra(r.symbol))
  }

  /** The code lengths the runs stand for. */
  function Unrolled(acc: seq<nat>, runs: seq<Run>): Option<seq<nat>>
    decreases |runs|
  {
    if runs == [] then Some(acc)
    else if runs[0].symbol == 16 && acc == [] then None
    else Unrolled(acc + Repeat(RunLength(runs[0].symbol, acc), RunLeast(runs[0].symbol) + runs[0].bits), runs[1..])
  }

  function OneRun(r: Run, cl: seq<nat>): seq<Bit>
    requires RunFits(r, cl)
  {
    SymbolBits(cl, r.symbol) + ExtraDigits(r.bits, RunExtra(r.symbol))
  }

  function RunBits(runs: seq<Run>, cl: seq<nat>): seq<Bit>
    requires forall r :: r in runs ==> RunFits(r, cl)
  {
    if runs == [] then []
    else
      assert runs[0] in runs;
      OneRun(runs[0], cl) + RunBits(runs[1..], cl)
  }

  ghost predicate RunsUsable(runs: seq<Run>, cl: seq<nat>) {
    forall r :: r in runs ==> RunFits(r, cl) && Usable(cl, r.symbol)
  }

  lemma {:induction false} UnrolledGrows(acc: seq<nat>, runs: seq<Run>)
    requires Unrolled(acc, runs).Some?
    ensures |acc| + |runs| <= |Unrolled(acc, runs).value|
    decreases |runs|
  {
    if runs != [] {
      UnrolledGrows(acc + Repeat(RunLength(runs[0].symbol, acc), RunLeast(runs[0].symbol) + runs[0].bits), runs[1..]);
    }
  }

  lemma {:induction false} RunsRead(bits: seq<Bit>, p: nat, runs: seq<Run>, cl: seq<nat>, acc: seq<nat>, n: nat)
    requires RunsUsable(runs, cl) && At(bits, p, RunBits(runs, cl))
    requires Unrolled(acc, runs).Some? && |Unrolled(acc, runs).value| == n
    ensures Lengths(bits, p, cl, n, acc) == Some((Unrolled(acc, runs).value, p + |RunBits(runs, cl)|))
    decreases |runs|
  {
    hide OneRun, At, Window, DecodeSymbol, Usable, Repeat, RunExtra, RunLeast, RunLength;
    UnrolledGrows(acc, runs);
    if runs == [] {
      AtInside(bits, p, RunBits(runs, cl));
    } else {
      var r := runs[0];
      assert r in runs;
      AtInside(bits, p, RunBits(runs, cl));
      AtSplit(bits, p, OneRun(r, cl), RunBits(runs[1..], cl));
      RunReads(bits, p, r, cl);
      RunsRead(bits, p + |OneRun(r, cl)|, runs[1..], cl,
               acc + Repeat(RunLength(r.symbol, acc), RunLeast(r.symbol) + r.bits), n);
    }
  }

  lemma RunReads(bits: seq<Bit>, p: nat, r: Run, cl: seq<nat>)
    requires RunFits(r, cl) && Usable(cl, r.symbol) && At(bits, p, OneRun(r, cl))
    ensures DecodeSymbol(bits, p, cl) == Some((r.symbol, p + cl[r.symbol]))
    ensures Window(bits, p + cl[r.symbol], RunExtra(r.symbol)) == r.bits
    ensures |OneRun(r, cl)| == cl[r.symbol] + RunExtra(r.symbol)
  {
    hide SymbolBits, ExtraDigits, DecodeSymbol, Usable, Window;
    AtSplit(bits, p, SymbolBits(cl, r.symbol), ExtraDigits(r.bits, RunExtra(r.symbol)));
    SymbolReads(bits, p, cl, r.symbol);
    ExtraReads(bits, p + cl[r.symbol], r.bits, RunExtra(r.symbol));
  }

  /** The lengths of the code length code, three bits each, in the transmitted order. */
  function OrderBits(cl: seq<nat>, i: nat): (r: seq<Bit>)
    requires |cl| == 19 && i <= 19
    ensures |r| == 3 * (19 - i)
    decreases 19 - i, cl
  {
    if i == 19 then [] else ExtraDigits(cl[OrderAt(i)], 3) + OrderBits(cl, i + 1)
  }

  function OrderAt(i: nat): (s: nat)
    requires i < 19
    ensures s < 19
  {
    OrderIndexInverse(i, 0);
    CODE_LENGTH_ORDER[i]
  }

  lemma {:induction false} OrderReads(bits: seq<Bit>, p: nat, cl: seq<nat>, i: nat, j: nat)
    requires |cl| == 19 && i <= j < 19 && At(bits, p + 3 * i, OrderBits(cl, i)) && cl[OrderAt(j)] < 8
    ensures Window(bits, p + 3 * j, 3) == cl[OrderAt(j)]
    decreases 19 - i
  {
    hide ExtraDigits, Window, OrderAt;
    AtSplit(bits, p + 3 * i, ExtraDigits(cl[OrderAt(i)], 3), OrderBits(cl, i + 1));
    if i == j {
      assert Pow2(3) == 8;
      ExtraReads(bits, p + 3 * i, cl[OrderAt(i)], 3);
    } else {
      OrderReads(bits, p, cl, i + 1, j);
    }
  }

  lemma OrderReadsAll(bits: seq<Bit>, p: nat, cl: seq<nat>)
    requires |cl| == 19 && At(bits, p, OrderBits(cl, 0)) && forall s :: 0 <= s < 19 ==> cl[s] < 8
    ensures CodeLengthLengths(bits, p, 19) == cl
  {
    hide Window, OrderBits;
    forall s | 0 <= s < 19
      ensures OrderIndex(s) < 19 && Window(bits, p + 3 * OrderIndex(s), 3) == cl[s]
    {
      OrderIndexInverse(OrderIndex(s), s);
      OrderReads(bits, p, cl, 0, OrderIndex(s));
    }
  }
}
