/** Building the decoding tables from code lengths, and the fixed tables. */
module TreeBuilding {
  import opened Numbers
  import opened BitStream
  import opened Huffman
  import opened HuffmanTree
  import opened Deflate

  datatype Status = Ok | InvalidData | OutputOverflow

  /** The code the tables hold: a single one-bit code gets a dummy sibling above every used symbol. */
  function Completed(lens: seq<nat>): seq<nat> {
    if NumCodes(lens) == 1 && MaxSym(lens) >= 0 then lens[..MaxSym(lens) + 1] + [1] else lens
  }

  // ---- Acceptance ----

  /** Every code takes at most half of the code space, a one-bit code exactly half. */
  lemma {:induction false} KraftBounds(lens: seq<nat>)
    requires Short(lens)
    ensures 16384 * Count(lens, 1) <= KraftSum(lens) <= 16384 * NumCodes(lens)
  {
    if lens == [] {
      BaseEmpty(lens, 16);
    } else {
      var init, x := lens[..|lens| - 1], lens[|lens| - 1];
      DropLast(lens);
      KraftBounds(init);
      CountAppend(init, x, 1);
      BaseAppend(init, x, 16);
      Pow2Values();
      if x > 0 {
        Pow2Monotone(15 - x, 14);
      }
    }
  }

  /** A level with more codes than prefixes left makes the whole code over-subscribed. */
  lemma {:induction false} OverfullLevel(lens: seq<nat>, l: nat)
    requires Short(lens) && l <= 15 && FirstCode(lens, l) + Count(lens, l) > Pow2(l)
    ensures KraftSum(lens) > Pow2(15) && !ValidCode(lens)
  {
    assert KraftSum(lens) > Pow2(15) by {
      if KraftSum(lens) <= Pow2(15) {
        LevelFits(lens, l);
      }
    }
    KraftBounds(lens);
    Pow2Values();
  }

  /** The test made once all levels fit is exactly validity. */
  lemma AcceptanceTest(lens: seq<nat>, available: nat)
    requires Short(lens) && available + FirstCode(lens, 16) == Pow2(16)
    ensures NumCodes(lens) == Base(lens, 16)
    ensures ValidCode(lens) <==>
            !((NumCodes(lens) > 1 && available > 0) || (NumCodes(lens) == 1 && Count(lens, 1) != 1))
  {
    FirstCodeIsKraft(lens);
    KraftBounds(lens);
    Pow2Values();
  }

  lemma {:induction false} MaxSymIs(lens: seq<nat>)
    ensures -1 <= MaxSym(lens) < |lens|
    ensures MaxSym(lens) >= 0 ==> lens[MaxSym(lens)] != 0
    ensures forall s :: MaxSym(lens) < s < |lens| ==> lens[s] == 0
  {
    if lens != [] {
      MaxSymIs(lens[..|lens| - 1]);
    }
  }

  lemma SingleHasOneBit(lens: seq<nat>)
    requires ValidCode(lens) && NumCodes(lens) == 1
    ensures Count(lens, 1) == 1
  {
    KraftBounds(lens);
    Pow2Values();
  }

  /** With one code of one bit, the largest used symbol is the only one. */
  lemma SingleCode(lens: seq<nat>)
    requires Short(lens) && NumCodes(lens) == 1 && Count(lens, 1) == 1
    ensures 0 <= MaxSym(lens) < |lens| && lens[MaxSym(lens)] == 1
    ensures forall s :: 0 <= s < |lens| && s != MaxSym(lens) ==> lens[s] == 0
  {
    MaxSymIs(lens);
    var one := NthSymbol(lens, 1, 0, |lens|);
    SlotInRange(lens, one);
    forall s | 0 <= s < |lens| && s != one
      ensures lens[s] == 0
    {
      if lens[s] != 0 {
        SlotInRange(lens, s);
        SlotInjective(lens, Min(s, one), Max(s, one));
      }
    }
  }

  lemma RankNone(lens: seq<nat>, l: nat, n: nat)
    requires n <= |lens| && forall s :: 0 <= s < n ==> lens[s] != l
    ensures Rank(lens, l, n) == 0
  {
  }

  /** The dummy sibling of a single one-bit code: two codes of one bit, 0 and 1. */
  lemma CompletedSingle(lens: seq<nat>)
    requires Short(lens) && NumCodes(lens) == 1 && Count(lens, 1) == 1
    ensures var c, m := Completed(lens), MaxSym(lens);
            && |c| == m + 2 && Short(c) && c[m] == 1 && c[m + 1] == 1
            && (forall s :: 0 <= s < m ==> c[s] == 0)
            && Rank(c, 1, m) == 0 && Rank(c, 1, m + 1) == 1
            && (forall l :: 0 <= l <= 15 ==> Count(c, l) == if l == 1 then 2 else 0)
  {
    SingleCode(lens);
    var c, m := Completed(lens), MaxSym(lens);
    RankNone(c, 1, m);
    forall l | 0 <= l <= 15 && l != 1
      ensures Count(c, l) == 0
    {
      if l != 0 {
        RankNone(c, l, |c|);
      }
    }
  }

  lemma BaseOfPair(c: seq<nat>, l: nat)
    requires forall l :: 0 <= l <= 15 ==> Count(c, l) == if l == 1 then 2 else 0
    requires l <= 16
    ensures Base(c, l) == if l <= 1 then 0 else 2
    ensures FirstCode(c, l) == if l <= 1 then 0 else Pow2(l)
  {
    if l > 0 {
      BaseOfPair(c, l - 1);
    }
  }

  /** Whatever non-empty code is accepted, the code the tables hold is complete. */
  lemma CompletedIsComplete(lens: seq<nat>)
    requires ValidCode(lens) && NumCodes(lens) > 0
    ensures Complete(Completed(lens))
  {
    if NumCodes(lens) == 1 {
      SingleHasOneBit(lens);
      CompletedSingle(lens);
      var c := Completed(lens);
      SingleCode(lens);
      BaseOfPair(c, 16);
      FirstCodeIsKraft(c);
      assert Pow2(16) == 2 * Pow2(15);
    }
  }

  /** Symbols that stand at a position are the same in the accepted code and in the completed
      one, up to the dummy, which is above every used symbol. */
  lemma CompletedDecodes(bits: seq<Bit>, p: nat, lens: seq<nat>, s: nat)
    requires ValidCode(lens) && NumCodes(lens) > 0
    ensures StartsWithCode(bits, p, lens, s) <==> StartsWithCode(bits, p, Completed(lens), s) && s <= MaxSym(lens)
    ensures StartsWithCode(bits, p, lens, s) ==> Completed(lens)[s] == lens[s]
  {
    MaxSymIs(lens);
    if NumCodes(lens) == 1 {
      SingleHasOneBit(lens);
      SingleCode(lens);
      CompletedSingle(lens);
      var m := MaxSym(lens);
      RankNone(lens, 1, m);
      assert FirstCode(lens, 1) == 0 by { assert FirstCode(lens, 0) == 0 && Count(lens, 0) == 0; }
      assert FirstCode(Completed(lens), 1) == 0 by {
        assert FirstCode(Completed(lens), 0) == 0 && Count(Completed(lens), 0) == 0;
      }
    }
  }

  /** Decoding with the tables of an accepted code is decoding with the code itself: the bits
      always give some symbol, and it is the right one if the bits are real and it is not the dummy. */
  lemma TablesDecode(t: Tree, lens: seq<nat>, bits: seq<Bit>, p: nat) returns (s: nat, q: nat)
    requires ValidCode(lens) && NumCodes(lens) > 0 && t.Represents(Completed(lens))
    ensures Roomy(t.counts[..])
    ensures var r := Walk(t.counts[..], bits, p, 1, 0, 0); 0 <= r.0 < 288 && t.symbols[r.0] == s && r.1 == q
    ensures p < q <= p + 15 && s < |Completed(lens)| && Completed(lens)[s] > 0
    ensures DecodeSymbol(bits, p, lens) == if s <= MaxSym(lens) && q <= |bits| then Some((s, q)) else None
  {
    hide Completed, MaxSym, Base, Rank, Count, Walk, StartsWithCode;
    CompletedIsComplete(lens);
    s := WalkComplete(t, Completed(lens), bits, p);
    q := p + Completed(lens)[s];
    DecodesAs(lens, bits, p, s);
  }

  /** If the completed code starts with the code of s, the format decodes s or nothing. */
  lemma DecodesAs(lens: seq<nat>, bits: seq<Bit>, p: nat, s: nat)
    requires ValidCode(lens) && NumCodes(lens) > 0 && StartsWithCode(bits, p, Completed(lens), s)
    requires Complete(Completed(lens)) && Short(Completed(lens))
    ensures s < |Completed(lens)|
    ensures var q := p + Completed(lens)[s];
            DecodeSymbol(bits, p, lens) == if s <= MaxSym(lens) && q <= |bits| then Some((s, q)) else None
  {
    hide Completed, MaxSym, Base, Rank, Count;
    var c := Completed(lens);
    var q := p + c[s];
    CompletedDecodes(bits, p, lens, s);
    if s <= MaxSym(lens) && q <= |bits| {
      DecodeSymbolIs(bits, p, lens, s);
    } else {
      var r := DecodeSymbol(bits, p, lens);
      if r.Some? {
        CompletedDecodes(bits, p, lens, r.value.0);
        PrefixFree(bits, p, c, s, r.value.0);
      }
    }
  }

  // ---- Building ----

  method BuildTree(t: Tree, lengths: seq<nat>) returns (res: Status)
    requires t.Sized() && |lengths| <= 288
    modifies t, t.counts, t.symbols
    ensures res == Ok || res == InvalidData
    ensures res == Ok <==> ValidCode(lengths)
    ensures res == Ok ==> t.Represents(Completed(lengths)) && t.maxSym == MaxSym(lengths)
  {
    res := CountLengths(t, lengths);
    if res != Ok {
      return;
    }
    var offs := new nat[16];
    var numCodes: nat;
    res, numCodes := CheckLevels(t, lengths, offs);
    if res != Ok {
      return;
    }
    PlaceSymbols(t, lengths, offs);
    NumCodesBound(lengths);
    if numCodes == 1 {
      AddDummy(t, lengths);
    }
  }

  method CountLengths(t: Tree, lengths: seq<nat>) returns (res: Status)
    requires t.Sized()
    modifies t, t.counts
    ensures res == if Short(lengths) then Ok else InvalidData
    ensures res == Ok ==> CountsOf(t.counts[..], lengths) && t.maxSym == MaxSym(lengths)
  {
    for i := 0 to 16
      invariant forall l :: 0 <= l < i ==> t.counts[l] == 0
    {
      t.counts[i] := 0;
    }
    t.maxSym := -1;
    for i := 0 to |lengths|
      invariant forall j :: 0 <= j < i ==> lengths[j] <= 15
      invariant t.maxSym == MaxSym(lengths[..i])
      invariant forall l :: 0 <= l <= 15 ==> t.counts[l] == if l == 0 then 0 else Rank(lengths, l, i)
    {
      if lengths[i] > 15 {
        return InvalidData;
      }
      assert lengths[..i + 1][..i] == lengths[..i];
      if lengths[i] != 0 {
        t.maxSym := i;
        t.counts[lengths[i]] := t.counts[lengths[i]] + 1;
      }
    }
    assert lengths[..|lengths|] == lengths;
    res := Ok;
  }

  lemma LevelZero(lens: seq<nat>)
    ensures Base(lens, 0) == 0 && FirstCode(lens, 0) == 0 && Pow2(0) == 1
  {
  }

  lemma NextLevel(lens: seq<nat>, l: nat)
    ensures Base(lens, l + 1) == Base(lens, l) + Count(lens, l)
    ensures FirstCode(lens, l + 1) == 2 * (FirstCode(lens, l) + Count(lens, l)) && Pow2(l + 1) == 2 * Pow2(l)
  {
  }

  method CheckLevels(t: Tree, lengths: seq<nat>, offs: array<nat>) returns (res: Status, numCodes: nat)
    requires t.Sized() && Short(lengths) && CountsOf(t.counts[..], lengths) && offs.Length == 16
    requires offs != t.counts
    modifies offs
    ensures res == if ValidCode(lengths) then Ok else InvalidData
    ensures res == Ok ==> numCodes == NumCodes(lengths)
    ensures res == Ok ==> offs[..] == NextSlots(lengths, 0)
  {
    hide Base, FirstCode, Count, Pow2, ValidCode;
    ghost var counts := t.counts[..];
    var available: nat := 1;
    numCodes := 0;
    LevelZero(lengths);
    for i := 0 to 16
      invariant t.counts[..] == counts
      invariant numCodes == Base(lengths, i)
      invariant available + FirstCode(lengths, i) == Pow2(i)
      invariant forall l :: 0 <= l < i ==> offs[l] == Base(lengths, l)
    {
      var used := t.counts[i];
      assert used == counts[i] == Count(lengths, i);
      if used > available {
        OverfullLevel(lengths, i);
        return InvalidData, 0;
      }
      NextLevel(lengths, i);
      available := 2 * (available - used);
      offs[i] := numCodes;
      numCodes := numCodes + used;
    }
    AcceptanceTest(lengths, available);
    if (numCodes > 1 && available > 0) || (numCodes == 1 && t.counts[1] != 1) {
      return InvalidData, 0;
    }
    assert offs[..] == NextSlots(lengths, 0);
    res := Ok;
  }

  method PlaceSymbols(t: Tree, lengths: seq<nat>, offs: array<nat>)
    requires t.Sized() && Short(lengths) && |lengths| <= 288 && offs.Length == 16
    requires offs != t.symbols
    requires offs[..] == NextSlots(lengths, 0)
    modifies t.symbols, offs
    ensures SymbolsOf(t.symbols[..], lengths)
  {
    ghost var slot := SlotTable(lengths);
    for i := 0 to |lengths|
      invariant offs[..] == NextSlots(lengths, i)
      invariant forall s {:trigger slot[s]} :: 0 <= s < i && lengths[s] > 0 ==> t.symbols[slot[s]] == s
    {
      NextSlotsStep(lengths, i);
      if lengths[i] != 0 {
        var l := lengths[i];
        assert offs[l] == offs[..][l] == slot[i];
        t.symbols[offs[l]] := i;
        offs[l] := offs[l] + 1;
      }
    }
    forall s | 0 <= s < |lengths| && lengths[s] > 0
      ensures Slot(lengths, s) < 288 && t.symbols[..][Slot(lengths, s)] == s
    {
      assert slot[s] == Slot(lengths, s);
    }
  }

  /** For each length, the slot the next symbol of that length gets once n symbols are placed. */
  function NextSlots(lens: seq<nat>, n: nat): (r: seq<nat>)
    requires n <= |lens|
    ensures |r| == 16
  {
    seq(16, (l: nat) => Base(lens, l) + if l == 0 then 0 else Rank(lens, l, n))
  }

  lemma NextSlotsStep(lens: seq<nat>, n: nat)
    requires n < |lens| && Short(lens)
    ensures var a, l := NextSlots(lens, n), lens[n];
            && NextSlots(lens, n + 1) == (if l == 0 then a else a[l := a[l] + 1])
            && (l > 0 ==> a[l] == Slot(lens, n))
  {
  }

  /** The slots of the used symbols, tabulated: distinct places of the symbol table. */
  lemma SlotTable(lens: seq<nat>) returns (slot: seq<nat>)
    requires Short(lens) && |lens| <= 288
    ensures |slot| == |lens|
    ensures forall s {:trigger slot[s]} :: 0 <= s < |lens| ==> slot[s] == Slot(lens, s)
    ensures forall s {:trigger slot[s]} :: 0 <= s < |lens| && lens[s] > 0 ==> slot[s] < 288
    ensures forall s, u {:trigger slot[s], slot[u]} :: 0 <= s < u < |lens| && lens[s] > 0 && lens[u] > 0 ==>
            slot[s] != slot[u]
  {
    slot := seq(|lens|, (s: nat) requires s < |lens| => Slot(lens, s));
    forall s | 0 <= s < |lens| && lens[s] > 0
      ensures slot[s] < 288
    {
      SlotInRange(lens, s);
    }
    forall s, u | 0 <= s < u < |lens| && lens[s] > 0 && lens[u] > 0
      ensures slot[s] != slot[u]
    {
      SlotInjective(lens, s, u);
    }
  }

  method AddDummy(t: Tree, lengths: seq<nat>)
    requires t.Represents(lengths) && ValidCode(lengths) && NumCodes(lengths) == 1
    requires t.maxSym == MaxSym(lengths)
    modifies t.counts, t.symbols
    ensures t.Represents(Completed(lengths))
  {
    DummyTables(t.counts[..], t.symbols[..], lengths);
    ghost var counts, symbols := t.counts[..], t.symbols[..];
    ghost var dummy: nat := MaxSym(lengths) + 1;
    t.counts[1] := 2;
    t.symbols[1] := t.maxSym + 1;
    assert t.counts[..] == counts[1 := 2] && t.symbols[..] == symbols[1 := dummy];
  }

  lemma DummyCounts(counts: seq<nat>, lens: seq<nat>)
    requires CountsOf(counts, lens) && Short(lens) && NumCodes(lens) == 1 && Count(lens, 1) == 1
    ensures CountsOf(counts[1 := 2], Completed(lens))
  {
    hide Rank, Base, MaxSym, Completed, Count;
    SingleCode(lens);
    CompletedSingle(lens);
    forall l | 0 <= l <= 15 && l != 1
      ensures Count(lens, l) == 0
    {
      OtherLevels(lens, l);
    }
  }

  lemma OtherLevels(lens: seq<nat>, l: nat)
    requires l != 1 && forall s :: 0 <= s < |lens| ==> lens[s] <= 1
    ensures Count(lens, l) == 0
  {
    if l > 0 {
      RankNone(lens, l, |lens|);
    }
  }

  lemma DummySymbols(symbols: seq<nat>, lens: seq<nat>)
    requires SymbolsOf(symbols, lens) && Short(lens) && NumCodes(lens) == 1 && Count(lens, 1) == 1
    ensures MaxSym(lens) >= 0 && SymbolsOf(symbols[1 := (MaxSym(lens) + 1) as nat], Completed(lens))
  {
    hide Rank, Base, MaxSym, Completed, Count;
    SingleCode(lens);
    CompletedSingle(lens);
    var m, c := MaxSym(lens), Completed(lens);
    SlotInRange(lens, m);
    assert symbols[0] == m;
    BaseOfPair(c, 1);
  }

  lemma DummyTables(counts: seq<nat>, symbols: seq<nat>, lens: seq<nat>)
    requires TablesOf(counts, symbols, lens) && ValidCode(lens) && NumCodes(lens) == 1
    ensures MaxSym(lens) >= 0 && TablesOf(counts[1 := 2], symbols[1 := (MaxSym(lens) + 1) as nat], Completed(lens))
  {
    hide Rank, Base, MaxSym, Completed, Count, CountsOf, SymbolsOf;
    SingleHasOneBit(lens);
    CompletedSingle(lens);
    DummyCounts(counts, lens);
    DummySymbols(symbols, lens);
    BaseOfPair(Completed(lens), 16);
  }

  // ---- The fixed tables ----

  lemma {:induction false} FixedRank(l: nat, n: nat)
    requires n <= 288
    ensures Rank(FixedLiterals(), l, n) ==
            if l == 7 then Min(24, Max(0, n - 256))
            else if l == 8 then Min(144, n) + Max(0, n - 280)
            else if l == 9 then Min(112, Max(0, n - 144))
            else 0
  {
    if n > 0 {
      FixedRank(l, n - 1);
    }
  }

  lemma FixedLevels()
    ensures var f := FixedLiterals();
            && Base(f, 7) == 0 && Base(f, 8) == 24 && Base(f, 9) == 176 && NumCodes(f) == 288 && Complete(f)
            && FirstCode(f, 7) == 0 && FirstCode(f, 8) == 48 && FirstCode(f, 9) == 400
  {
    var f := FixedLiterals();
    forall l: nat
      ensures Count(f, l) == if l == 7 then 24 else if l == 8 then 152 else if l == 9 then 112 else 0
    {
      FixedRank(l, 288);
    }
    assert Base(f, 4) == 0 && FirstCode(f, 4) == 0;
    assert Base(f, 7) == 0 && FirstCode(f, 7) == 0;
    assert Base(f, 9) == 176 && FirstCode(f, 9) == 400;
    assert Base(f, 10) == 288 && FirstCode(f, 10) == 1024;
    assert Base(f, 13) == 288 && FirstCode(f, 13) == 8192;
    assert Base(f, 16) == 288 && FirstCode(f, 16) == 65536;
    FirstCodeIsKraft(f);
    Pow2Values();
  }

  lemma {:induction false} FixedDistanceRank(l: nat, n: nat)
    requires n <= 32
    ensures Rank(FixedDistances(), l, n) == if l == 5 then n else 0
  {
    if n > 0 {
      FixedDistanceRank(l, n - 1);
    }
  }

  lemma FixedDistanceLevels()
    ensures var f := FixedDistances(); Base(f, 5) == 0 && FirstCode(f, 5) == 0 && NumCodes(f) == 32 && Complete(f)
  {
    var f := FixedDistances();
    forall l: nat
      ensures Count(f, l) == if l == 5 then 32 else 0
    {
      FixedDistanceRank(l, 32);
    }
    assert Base(f, 3) == 0 && FirstCode(f, 3) == 0;
    assert Base(f, 5) == 0 && FirstCode(f, 5) == 0;
    assert Base(f, 8) == 32 && FirstCode(f, 8) == 256;
    assert Base(f, 12) == 32 && FirstCode(f, 12) == 4096;
    assert Base(f, 16) == 32 && FirstCode(f, 16) == 65536;
    FirstCodeIsKraft(f);
    Pow2Values();
  }

  method BuildFixedLiterals(lt: Tree)
    requires lt.Sized()
    modifies lt, lt.counts, lt.symbols
    ensures lt.Represents(FixedLiterals()) && lt.maxSym == 285
  {
    for i := 0 to 16
      invariant forall l :: 0 <= l < i ==> lt.counts[l] == 0
    {
      lt.counts[i] := 0;
    }
    lt.counts[7], lt.counts[8], lt.counts[9] := 24, 152, 112;
    for i := 0 to 24
      modifies lt.symbols
      invariant forall j :: 0 <= j < i ==> lt.symbols[j] == 256 + j
    {
      lt.symbols[i] := 256 + i;
    }
    for i := 0 to 144
      modifies lt.symbols
      invariant forall j :: 0 <= j < 24 ==> lt.symbols[j] == 256 + j
      invariant forall j :: 24 <= j < 24 + i ==> lt.symbols[j] == j - 24
    {
      lt.symbols[24 + i] := i;
    }
    for i := 0 to 8
      modifies lt.symbols
      invariant forall j :: 0 <= j < 24 ==> lt.symbols[j] == 256 + j
      invariant forall j :: 24 <= j < 168 ==> lt.symbols[j] == j - 24
      invariant forall j :: 168 <= j < 168 + i ==> lt.symbols[j] == j + 112
    {
      lt.symbols[24 + 144 + i] := 280 + i;
    }
    for i := 0 to 112
      modifies lt.symbols
      invariant forall j :: 0 <= j < 24 ==> lt.symbols[j] == 256 + j
      invariant forall j :: 24 <= j < 168 ==> lt.symbols[j] == j - 24
      invariant forall j :: 168 <= j < 176 ==> lt.symbols[j] == j + 112
      invariant forall j :: 176 <= j < 176 + i ==> lt.symbols[j] == j - 32
    {
      lt.symbols[24 + 144 + 8 + i] := 144 + i;
    }
    lt.maxSym := 285;
    FixedTables(lt.counts[..], lt.symbols[..]);
  }

  lemma FixedTables(counts: seq<nat>, symbols: seq<nat>)
    requires |counts| == 16 && |symbols| == 288
    requires forall l :: 0 <= l < 16 ==>
      counts[l] == if l == 7 then 24 else if l == 8 then 152 else if l == 9 then 112 else 0
    requires forall j :: 0 <= j < 24 ==> symbols[j] == 256 + j
    requires forall j :: 24 <= j < 168 ==> symbols[j] == j - 24
    requires forall j :: 168 <= j < 176 ==> symbols[j] == j + 112
    requires forall j :: 176 <= j < 288 ==> symbols[j] == j - 32
    ensures TablesOf(counts, symbols, FixedLiterals())
  {
    FixedLevels();
    forall l | 0 <= l <= 15
      ensures counts[l] == Count(FixedLiterals(), l)
    {
      FixedRank(l, 288);
    }
    forall s | 0 <= s < 288
      ensures Slot(FixedLiterals(), s) < 288 && symbols[Slot(FixedLiterals(), s)] == s
    {
      FixedRank(FixedLiteral(s), s);
    }
  }

  method BuildFixedDistances(dt: Tree)
    requires dt.Sized()
    modifies dt, dt.counts, dt.symbols
    ensures dt.Represents(FixedDistances()) && dt.maxSym == 29
  {
    for i := 0 to 16
      invariant forall l :: 0 <= l < i ==> dt.counts[l] == 0
    {
      dt.counts[i] := 0;
    }
    dt.counts[5] := 32;
    for i := 0 to 32
      modifies dt.symbols
      invariant forall j :: 0 <= j < i ==> dt.symbols[j] == j
    {
      dt.symbols[i] := i;
    }
    dt.maxSym := 29;
    FixedDistanceTables(dt.counts[..], dt.symbols[..]);
  }

  lemma FixedDistanceTables(counts: seq<nat>, symbols: seq<nat>)
    requires |counts| == 16 && |symbols| == 288
    requires forall l :: 0 <= l < 16 ==> counts[l] == if l == 5 then 32 else 0
    requires forall j :: 0 <= j < 32 ==> symbols[j] == j
    ensures TablesOf(counts, symbols, FixedDistances())
  {
    FixedDistanceLevels();
    forall l | 0 <= l <= 15
      ensures counts[l] == Count(FixedDistances(), l)
    {
      FixedDistanceRank(l, 32);
    }
    forall s | 0 <= s < 32
      ensures Slot(FixedDistances(), s) < 288 && symbols[Slot(FixedDistances(), s)] == s
    {
      FixedDistanceRank(5, s);
    }
  }
}
