/**
  Canonical Huffman codes as section 3.2.2 of RFC 1951 defines them: a code is given by
  the code length of each symbol (0 for an unused symbol), shorter codes come first and
  codes of one length are consecutive in symbol order.
*/
module Huffman {
  import opened Numbers
  import opened BitStream

  /** Number of symbols below n whose code has length l. */
  function Rank(lens: seq<nat>, l: nat, n: nat): (r: nat)
    requires n <= |lens|
    ensures r <= n
  {
    if n == 0 then 0 else Rank(lens, l, n - 1) + if lens[n - 1] == l then 1 else 0
  }

  /** bl_count of the RFC: unused symbols are not counted. */
  function Count(lens: seq<nat>, l: nat): nat {
    if l == 0 then 0 else Rank(lens, l, |lens|)
  }

  /** next_code of the RFC before any symbol is assigned: the numerically first code of length l. */
  function FirstCode(lens: seq<nat>, l: nat): nat {
    if l == 0 then 0 else 2 * (FirstCode(lens, l - 1) + Count(lens, l - 1))
  }

  /** The code of symbol s. */
  function Code(lens: seq<nat>, s: nat): nat
    requires s < |lens|
  {
    FirstCode(lens, lens[s]) + Rank(lens, lens[s], s)
  }

  /** Number of codes shorter than l. */
  function Base(lens: seq<nat>, l: nat): nat {
    if l == 0 then 0 else Base(lens, l - 1) + Count(lens, l - 1)
  }

  function NumCodes(lens: seq<nat>): nat {
    Base(lens, 16)
  }

  predicate Short(lens: seq<nat>) {
    forall i :: 0 <= i < |lens| ==> lens[i] <= 15
  }

  /** The Kraft sum of the code, scaled by 2^15. */
  function KraftSum(lens: seq<nat>): nat
    requires Short(lens)
  {
    if lens == [] then 0 else
      var l := lens[|lens| - 1];
      KraftSum(lens[..|lens| - 1]) + if l == 0 then 0 else Pow2(15 - l)
  }

  predicate Complete(lens: seq<nat>) {
    Short(lens) && KraftSum(lens) == Pow2(15)
  }

  /** A set of lengths a decoder takes: no code at all, one code of one bit, or a complete code. */
  predicate ValidCode(lens: seq<nat>) {
    && Short(lens)
    && (NumCodes(lens) == 0 || (NumCodes(lens) == 1 && Count(lens, 1) == 1) || Complete(lens))
  }

  /** The largest symbol that has a code, -1 if none. */
  function MaxSym(lens: seq<nat>): (r: int)
    ensures -1 <= r < |lens|
  {
    if lens == [] then -1
    else if lens[|lens| - 1] != 0 then |lens| - 1
    else MaxSym(lens[..|lens| - 1])
  }

  /** Place of symbol s when the used symbols are sorted by length, then by symbol. */
  function Slot(lens: seq<nat>, s: nat): nat
    requires s < |lens|
  {
    Base(lens, lens[s]) + Rank(lens, lens[s], s)
  }

  /** The bits at p, real or past the end, start with the code of s. */
  predicate StartsWithCode(bits: seq<Bit>, p: nat, lens: seq<nat>, s: nat) {
    s < |lens| && lens[s] > 0 && CodeBits(bits, p, lens[s]) == Code(lens, s)
  }

  /** The code of s stands at p in the real bits of the stream. */
  predicate Decodes(bits: seq<Bit>, p: nat, lens: seq<nat>, s: nat) {
    StartsWithCode(bits, p, lens, s) && p + lens[s] <= |bits|
  }

  /** The symbol whose code stands at p, and the position after it. */
  ghost function DecodeSymbol(bits: seq<Bit>, p: nat, lens: seq<nat>): (r: Option<(nat, nat)>)
    ensures r.Some? ==> Decodes(bits, p, lens, r.value.0) && r.value.1 == p + lens[r.value.0]
    ensures r.None? ==> forall s: nat :: !Decodes(bits, p, lens, s)
  {
    if s: nat :| Decodes(bits, p, lens, s) then Some((s, p + lens[s])) else None
  }

  // ---- Counting ----

  lemma {:induction false} RankMonotone(lens: seq<nat>, l: nat, a: nat, b: nat)
    requires a <= b <= |lens|
    ensures Rank(lens, l, a) <= Rank(lens, l, b)
    ensures a < b && lens[a] == l ==> Rank(lens, l, a) < Rank(lens, l, b)
  {
    if a < b {
      RankMonotone(lens, l, a, b - 1);
    }
  }

  lemma RankAppend(lens: seq<nat>, x: nat, l: nat, n: nat)
    requires n <= |lens|
    ensures Rank(lens + [x], l, n) == Rank(lens, l, n)
  {
  }

  lemma CountAppend(lens: seq<nat>, x: nat, l: nat)
    ensures Count(lens + [x], l) == Count(lens, l) + if l == x && l > 0 then 1 else 0
  {
    RankAppend(lens, x, l, |lens|);
  }

  lemma {:induction false} BaseAppend(lens: seq<nat>, x: nat, l: nat)
    ensures Base(lens + [x], l) == Base(lens, l) + if 0 < x < l then 1 else 0
  {
    if l > 0 {
      BaseAppend(lens, x, l - 1);
      CountAppend(lens, x, l - 1);
    }
  }

  lemma {:induction false} FirstCodeAppend(lens: seq<nat>, x: nat, l: nat)
    ensures FirstCode(lens + [x], l) == FirstCode(lens, l) + if 0 < x < l then Pow2(l - x) else 0
  {
    if l > 0 {
      FirstCodeAppend(lens, x, l - 1);
      CountAppend(lens, x, l - 1);
    }
  }

  lemma DropLast(lens: seq<nat>)
    requires lens != []
    ensures lens == lens[..|lens| - 1] + [lens[|lens| - 1]]
  {
  }

  lemma {:induction false} BaseEmpty(lens: seq<nat>, l: nat)
    requires lens == []
    ensures Base(lens, l) == 0 && FirstCode(lens, l) == 0
  {
    if l > 0 {
      BaseEmpty(lens, l - 1);
    }
  }

  /** One past the last code of length 15 is the Kraft sum: the level-by-level count and the
      per-symbol sum agree. */
  lemma {:induction false} FirstCodeIsKraft(lens: seq<nat>)
    requires Short(lens)
    ensures FirstCode(lens, 16) == 2 * KraftSum(lens)
  {
    if lens == [] {
      BaseEmpty(lens, 16);
    } else {
      var init, x := lens[..|lens| - 1], lens[|lens| - 1];
      DropLast(lens);
      FirstCodeIsKraft(init);
      FirstCodeAppend(init, x, 16);
    }
  }

  lemma {:induction false} NumCodesBound(lens: seq<nat>)
    ensures NumCodes(lens) <= |lens|
  {
    if lens == [] {
      BaseEmpty(lens, 16);
    } else {
      DropLast(lens);
      NumCodesBound(lens[..|lens| - 1]);
      BaseAppend(lens[..|lens| - 1], lens[|lens| - 1], 16);
    }
  }

  lemma {:induction false} BaseMonotone(lens: seq<nat>, a: nat, b: nat)
    requires a <= b
    ensures Base(lens, a) <= Base(lens, b)
    ensures a < b ==> Base(lens, a) + Count(lens, a) <= Base(lens, b)
  {
    if a < b {
      BaseMonotone(lens, a, b - 1);
    }
  }

  /** Every slot belongs to one symbol, and all of them lie below the number of codes. */
  lemma SlotInRange(lens: seq<nat>, s: nat)
    requires s < |lens| && 0 < lens[s] <= 15
    ensures Base(lens, lens[s]) <= Slot(lens, s) < Base(lens, lens[s] + 1) <= NumCodes(lens) <= |lens|
  {
    RankMonotone(lens, lens[s], s, |lens|);
    BaseMonotone(lens, lens[s] + 1, 16);
    NumCodesBound(lens);
  }

  lemma SlotInjective(lens: seq<nat>, s: nat, t: nat)
    requires Short(lens) && s < t < |lens| && lens[s] > 0 && lens[t] > 0
    ensures Slot(lens, s) != Slot(lens, t)
  {
    SlotInRange(lens, s);
    SlotInRange(lens, t);
    if lens[s] == lens[t] {
      RankMonotone(lens, lens[s], s, t);
    } else {
      BaseMonotone(lens, Min(lens[s], lens[t]) + 1, Max(lens[s], lens[t]));
    }
  }

  /** The r-th symbol of length l exists. */
  lemma {:induction false} NthSymbol(lens: seq<nat>, l: nat, r: nat, n: nat) returns (s: nat)
    requires n <= |lens| && r < Rank(lens, l, n)
    ensures s < n && lens[s] == l && Rank(lens, l, s) == r
  {
    if lens[n - 1] == l && Rank(lens, l, n - 1) == r {
      s := n - 1;
    } else {
      s := NthSymbol(lens, l, r, n - 1);
    }
  }

  // ---- Decoding ----

  /** Once a code of length l fits, no shorter level could have matched. */
  lemma {:induction false} AboveShorterLevels(bits: seq<Bit>, p: nat, lens: seq<nat>, k: nat, l: nat)
    requires k < l && CodeBits(bits, p, l) >= FirstCode(lens, l)
    ensures CodeBits(bits, p, k) >= FirstCode(lens, k) + Count(lens, k)
    decreases l
  {
    if k < l - 1 {
      AboveShorterLevels(bits, p, lens, k, l - 1);
    }
  }

  /** No code is a prefix of another: at most one symbol can stand at a position. */
  lemma PrefixFree(bits: seq<Bit>, p: nat, lens: seq<nat>, s: nat, t: nat)
    requires StartsWithCode(bits, p, lens, s) && StartsWithCode(bits, p, lens, t)
    ensures s == t
  {
    RankMonotone(lens, lens[s], s, |lens|);
    RankMonotone(lens, lens[t], t, |lens|);
    if lens[s] < lens[t] {
      AboveShorterLevels(bits, p, lens, lens[s], lens[t]);
    } else if lens[t] < lens[s] {
      AboveShorterLevels(bits, p, lens, lens[t], lens[s]);
    } else if s < t {
      RankMonotone(lens, lens[s], s, t);
    } else if t < s {
      RankMonotone(lens, lens[s], t, s);
    }
  }

  /** DecodeSymbol finds exactly the symbol that stands there. */
  lemma DecodeSymbolIs(bits: seq<Bit>, p: nat, lens: seq<nat>, s: nat)
    requires Decodes(bits, p, lens, s)
    ensures DecodeSymbol(bits, p, lens) == Some((s, p + lens[s]))
  {
    PrefixFree(bits, p, lens, s, DecodeSymbol(bits, p, lens).value.0);
  }

  /** No level of a code with Kraft sum at most 1 overflows. */
  lemma {:induction false} LevelFits(lens: seq<nat>, l: nat)
    requires Short(lens) && KraftSum(lens) <= Pow2(15) && l <= 15
    ensures FirstCode(lens, l) + Count(lens, l) <= Pow2(l)
    decreases 15 - l
  {
    if l == 15 {
      FirstCodeIsKraft(lens);
    } else {
      LevelFits(lens, l + 1);
    }
  }

  /** A complete code always decodes: whatever the bits are, some symbol of at most 15 bits stands there. */
  lemma CompleteDecodes(bits: seq<Bit>, p: nat, lens: seq<nat>) returns (s: nat)
    requires Complete(lens)
    ensures StartsWithCode(bits, p, lens, s)
  {
    FirstCodeIsKraft(lens);
    CodeBitsBound(bits, p, 15);
    s := FindLevel(bits, p, lens, 15);
  }

  lemma {:induction false} FindLevel(bits: seq<Bit>, p: nat, lens: seq<nat>, l: nat) returns (s: nat)
    requires CodeBits(bits, p, l) < FirstCode(lens, l) + Count(lens, l)
    ensures StartsWithCode(bits, p, lens, s)
  {
    if CodeBits(bits, p, l) < FirstCode(lens, l) {
      s := FindLevel(bits, p, lens, l - 1);
    } else {
      s := NthSymbol(lens, l, CodeBits(bits, p, l) - FirstCode(lens, l), |lens|);
    }
  }
}
