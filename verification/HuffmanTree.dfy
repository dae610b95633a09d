/**
  The decoding tables of the decompressor: how many codes each length has, and the used
  symbols sorted by code.  `Walk` is what decoding does with them bit by bit; the lemmas
  show that it inverts the canonical code of section 3.2.2 of RFC 1951.
*/
module HuffmanTree {
  import opened BitStream
  import opened Huffman
  import opened BitReading

  class Tree {
    const counts: array<nat>
    const symbols: array<nat>
    var maxSym: int

    ghost predicate Sized() {
      counts.Length == 16 && symbols.Length == 288 && counts != symbols
    }

    /** The tables are those of the code with these lengths. */
    ghost predicate Represents(lens: seq<nat>)
      reads counts, symbols
    {
      Sized() && TablesOf(counts[..], symbols[..], lens)
    }

    constructor ()
      ensures Sized() && fresh(counts) && fresh(symbols)
    {
      counts := new nat[16];
      symbols := new nat[288];
      maxSym := -1;
    }
  }

  ghost predicate CountsOf(counts: seq<nat>, lens: seq<nat>) {
    |counts| == 16 && forall l :: 0 <= l <= 15 ==> counts[l] == Count(lens, l)
  }

  ghost predicate SymbolsOf(symbols: seq<nat>, lens: seq<nat>) {
    && |symbols| == 288
    && forall s :: 0 <= s < |lens| && lens[s] > 0 ==> Slot(lens, s) < 288 && symbols[Slot(lens, s)] == s
  }

  ghost predicate TablesOf(counts: seq<nat>, symbols: seq<nat>, lens: seq<nat>) {
    Short(lens) && NumCodes(lens) <= 288 && CountsOf(counts, lens) && SymbolsOf(symbols, lens)
  }

  /** Codes of the tables that are shorter than l. */
  function Total(counts: seq<nat>, l: nat): nat
    requires l <= |counts|
  {
    if l <= 1 then 0 else Total(counts, l - 1) + counts[l - 1]
  }

  /** Every code counted has a place in the symbol table. */
  ghost predicate Roomy(counts: seq<nat>) {
    && |counts| == 16
    && forall l {:trigger Total(counts, l)} :: 1 <= l <= 15 ==> Total(counts, l) + counts[l] <= 288
  }

  /** Descend one level per bit; the slot found (-1 if none) and the position after the code. */
  function Walk(counts: seq<nat>, bits: seq<Bit>, p: nat, len: nat, base: nat, offs: nat): (int, nat)
    requires |counts| == 16 && 1 <= len <= 16
    decreases 16 - len, counts
  {
    var o := 2 * offs + BitAt(bits, p);
    if len > 15 then (-1, p + 1)
    else if o < counts[len] then (base + o, p + 1)
    else Walk(counts, bits, p + 1, len + 1, base + counts[len], o - counts[len])
  }

  lemma WalkHit(counts: seq<nat>, bits: seq<Bit>, p: nat, len: nat, base: nat, offs: nat)
    requires |counts| == 16 && 1 <= len <= 15
    requires 2 * offs + BitAt(bits, p) < counts[len]
    ensures Walk(counts, bits, p, len, base, offs) == (base + 2 * offs + BitAt(bits, p), p + 1)
  {
  }

  lemma WalkMiss(counts: seq<nat>, bits: seq<Bit>, p: nat, len: nat, base: nat, offs: nat)
    requires |counts| == 16 && 1 <= len <= 15
    requires 2 * offs + BitAt(bits, p) >= counts[len]
    ensures Walk(counts, bits, p, len, base, offs) ==
            Walk(counts, bits, p + 1, len + 1, base + counts[len], 2 * offs + BitAt(bits, p) - counts[len])
  {
  }

  lemma {:induction false} TotalMonotone(counts: seq<nat>, a: nat, b: nat)
    requires a <= b <= |counts|
    ensures Total(counts, a) <= Total(counts, b)
  {
    if a < b {
      TotalMonotone(counts, a, b - 1);
    }
  }

  /** The slot found is below the number of codes the table counts. */
  lemma {:induction false} WalkInRange(counts: seq<nat>, bits: seq<Bit>, p: nat, len: nat, base: nat, offs: nat)
    requires |counts| == 16 && 1 <= len <= 16 && base == Total(counts, len)
    ensures -1 <= Walk(counts, bits, p, len, base, offs).0 < Total(counts, 16)
    decreases 16 - len
  {
    if len <= 15 {
      TotalMonotone(counts, len + 1, 16);
      if 2 * offs + BitAt(bits, p) >= counts[len] {
        WalkMiss(counts, bits, p, len, base, offs);
        WalkInRange(counts, bits, p + 1, len + 1, base + counts[len], 2 * offs + BitAt(bits, p) - counts[len]);
      }
    }
  }

  method ReadSymbol(d: BitReader, t: Tree) returns (sym: int)
    requires d.Settled() && t.Sized() && Roomy(t.counts[..])
    modifies d
    ensures d.Settled()
    ensures var r := Walk(t.counts[..], d.bits, old(d.At()), 1, 0, 0);
            d.At() == r.1 && -1 <= r.0 < Total(t.counts[..], 16) <= 288 && sym == if r.0 < 0 then -1 else t.symbols[r.0]
  {
    ghost var counts := t.counts[..];
    ghost var r := Walk(counts, d.bits, d.At(), 1, 0, 0);
    WalkInRange(counts, d.bits, d.At(), 1, 0, 0);
    assert Total(counts, 16) == Total(counts, 15) + counts[15];
    var base, offs, len := 0, 0, 1;
    while true
      invariant d.Settled() && t.counts[..] == counts
      invariant 1 <= len <= 16 && base == Total(counts, len)
      invariant Walk(counts, d.bits, d.At(), len, base, offs) == r
      decreases 16 - len
    {
      var bit := d.GetBits(1);
      offs := 2 * offs + bit;
      if len > 15 {
        return -1;
      }
      if offs < t.counts[len] {
        break;
      }
      base := base + t.counts[len];
      offs := offs - t.counts[len];
      len := len + 1;
    }
    sym := t.symbols[base + offs];
  }

  // ---- The walk inverts the canonical code ----

  lemma {:induction false} TotalIsBase(counts: seq<nat>, lens: seq<nat>, l: nat)
    requires CountsOf(counts, lens) && l <= 16
    ensures Total(counts, l) == Base(lens, l)
  {
    if l > 1 {
      TotalIsBase(counts, lens, l - 1);
    }
  }

  /** From level len on, with the remainder of the first len - 1 bits, the walk reaches the symbol
      whose code stands at p. */
  lemma {:induction false} WalkFrom(counts: seq<nat>, lens: seq<nat>, bits: seq<Bit>, p: nat, s: nat,
                                    len: nat, offs: nat)
    requires CountsOf(counts, lens) && Short(lens) && StartsWithCode(bits, p, lens, s)
    requires 1 <= len <= lens[s]
    requires 2 * offs + FirstCode(lens, len) == 2 * CodeBits(bits, p, len - 1)
    ensures Walk(counts, bits, p + len - 1, len, Base(lens, len), offs) == (Slot(lens, s), p + lens[s])
    decreases lens[s] - len
  {
    hide Walk, CodeBits, FirstCode, Base, Rank;
    var o := 2 * offs + BitAt(bits, p + len - 1);
    LevelRemainder(lens, bits, p, len, offs);
    if len < lens[s] {
      AboveShorterLevels(bits, p, lens, len, lens[s]);
      WalkMiss(counts, bits, p + len - 1, len, Base(lens, len), offs);
      WalkFrom(counts, lens, bits, p, s, len + 1, o - counts[len]);
    } else {
      RankMonotone(lens, len, s, |lens|);
      WalkHit(counts, bits, p + len - 1, len, Base(lens, len), offs);
    }
  }

  /** What is left of the code after the shorter levels, and how the next level halves it. */
  lemma LevelRemainder(lens: seq<nat>, bits: seq<Bit>, p: nat, len: nat, offs: nat)
    requires 1 <= len && 2 * offs + FirstCode(lens, len) == 2 * CodeBits(bits, p, len - 1)
    ensures 2 * offs + BitAt(bits, p + len - 1) + FirstCode(lens, len) == CodeBits(bits, p, len)
    ensures FirstCode(lens, len + 1) == 2 * (FirstCode(lens, len) + Count(lens, len))
    ensures Base(lens, len + 1) == Base(lens, len) + Count(lens, len)
  {
  }

  /** Fed the canonical code of a symbol followed by any bits, the tables give that symbol and
      exactly its bits are consumed. */
  lemma WalkInvertsCode(t: Tree, lens: seq<nat>, bits: seq<Bit>, p: nat, s: nat)
    requires t.Represents(lens) && StartsWithCode(bits, p, lens, s)
    ensures Walk(t.counts[..], bits, p, 1, 0, 0) == (Slot(lens, s), p + lens[s])
    ensures t.symbols[Slot(lens, s)] == s
  {
    assert FirstCode(lens, 1) == 0 by { assert FirstCode(lens, 0) == 0 && Count(lens, 0) == 0; }
    assert Base(lens, 1) == 0;
    WalkFrom(t.counts[..], lens, bits, p, s, 1, 0);
  }

  lemma TreeIsRoomy(t: Tree, lens: seq<nat>)
    requires t.Represents(lens)
    ensures Roomy(t.counts[..])
  {
    forall l | 1 <= l <= 15
      ensures Total(t.counts[..], l) + t.counts[l] <= 288
    {
      TotalIsBase(t.counts[..], lens, l);
      BaseMonotone(lens, l, 16);
    }
  }

  /** Tables of a complete code never run out of levels, whatever bits they meet. */
  lemma WalkComplete(t: Tree, lens: seq<nat>, bits: seq<Bit>, p: nat) returns (s: nat)
    requires t.Represents(lens) && Complete(lens)
    ensures StartsWithCode(bits, p, lens, s)
    ensures Walk(t.counts[..], bits, p, 1, 0, 0) == (Slot(lens, s), p + lens[s])
    ensures t.symbols[Slot(lens, s)] == s
    ensures Roomy(t.counts[..])
  {
    s := CompleteDecodes(bits, p, lens);
    WalkInvertsCode(t, lens, bits, p, s);
    TreeIsRoomy(t, lens);
  }
}
