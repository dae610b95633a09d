/** The decompressor itself, proved against the DEFLATE format in module Deflate. */
module Inflating {
  import opened Numbers
  import opened BitStream
  import opened Huffman
  import opened Deflate
  import opened BitReading
  import opened HuffmanTree
  import opened TreeBuilding

  const LENGTH_BITS: seq<nat> :=
    [0, 0, 0, 0, 0, 0, 0, 0, 1, 1,
     1, 1, 2, 2, 2, 2, 3, 3, 3, 3,
     4, 4, 4, 4, 5, 5, 5, 5, 0, 127]
  const LENGTH_BASE: seq<nat> :=
    [3, 4, 5, 6, 7, 8, 9, 10, 11, 13,
     15, 17, 19, 23, 27, 31, 35, 43, 51, 59,
     67, 83, 99, 115, 131, 163, 195, 227, 258, 0]
  const DIST_BITS: seq<nat> :=
    [0, 0, 0, 0, 1, 1, 2, 2, 3, 3,
     4, 4, 5, 5, 6, 6, 7, 7, 8, 8,
     9, 9, 10, 10, 11, 11, 12, 12, 13, 13]
  const DIST_BASE: seq<nat> :=
    [1, 2, 3, 4, 5, 7, 9, 13, 17, 25,
     33, 49, 65, 97, 129, 193, 257, 385, 513, 769,
     1025, 1537, 2049, 3073, 4097, 6145, 8193, 12289, 16385, 24577]

  /** The length table of the code holds the bases and extra bits of section 3.2.5. */
  lemma LengthTable(c: nat)
    requires c <= 28
    ensures LENGTH_BITS[c] == LengthExtra(c) <= 5 && LENGTH_BASE[c] == LengthBase(c)
  {
    if 8 <= c < 28 {
      var e := c / 4 - 1;
      assert Shl(4 + c % 4, e) == ShlSmall(4 + c % 4, e) by { ShlSmallIs(4 + c % 4, e); }
    }
  }

  lemma DistanceTable(c: nat)
    requires c <= 29
    ensures DIST_BITS[c] == DistanceExtra(c) <= 13 && DIST_BASE[c] == DistanceBase(c) > 0
  {
    if c >= 2 {
      hide Shl, ShlSmall;
      DistanceBaseTable(c);
      ShlSmallIs(2 + c % 2, c / 2 - 1);
    }
  }

  lemma DistanceBaseTable(c: nat)
    requires 2 <= c <= 29
    ensures DIST_BASE[c] == 1 + ShlSmall(2 + c % 2, c / 2 - 1)
  {
  }

  /** Copying nothing, and copying one byte more. */
  lemma CopyNothing(out: seq<Byte>, d: nat)
    requires 0 < d <= |out|
    ensures CopyBack(out, d, 0) == out
  {
  }

  lemma CopyOne(out: seq<Byte>, d: nat, n: nat)
    requires 0 < d <= |out|
    ensures CopyBack(out, d, n + 1) == CopyBack(out, d, n) + [CopyBack(out, d, n)[|CopyBack(out, d, n)| - d]]
  {
  }

  /** Shifts by a few places, tabulated. */
  function ShlSmall(x: nat, n: nat): nat
    requires n <= 13
  {
    x * [1, 2, 4, 8, 16, 32, 64, 128, 256, 512, 1024, 2048, 4096, 8192][n]
  }

  lemma {:induction false} ShlSmallIs(x: nat, n: nat)
    requires n <= 13
    ensures Shl(x, n) == ShlSmall(x, n)
  {
    if n > 0 {
      ShlSmallIs(x, n - 1);
    }
  }

  /** What a status says about the format: the result is exact on Ok, an error means there is none,
      and an overflow that a longer destination would be needed if there is one. */
  ghost predicate Outcome(res: Status, r: Progress, out: seq<Byte>, at: nat, room: nat) {
    match res
    case Ok => r == Some((out, at))
    case InvalidData => r.None?
    case OutputOverflow => r.None? || |r.value.0| > room
  }

  /** A code with a used symbol is not empty, and an unused code decodes nothing. */
  lemma UsedCode(lens: seq<nat>, bits: seq<Bit>, p: nat)
    requires Short(lens)
    ensures MaxSym(lens) >= 0 ==> NumCodes(lens) > 0
    ensures MaxSym(lens) == -1 ==> DecodeSymbol(bits, p, lens).None?
  {
    MaxSymIs(lens);
    if MaxSym(lens) >= 0 {
      SlotInRange(lens, MaxSym(lens));
    }
  }

  /** Decoding a symbol with the tables of an accepted, non-empty code: never -1, and the symbol of
      the format unless it is the dummy or its bits run past the end. */
  method NextSymbol(d: BitReader, t: Tree, ghost lens: seq<nat>) returns (sym: int)
    requires d.Settled() && ValidCode(lens) && MaxSym(lens) >= 0 && t.Represents(Completed(lens))
    modifies d
    ensures d.Settled() && sym >= 0 && old(d.At()) < d.At() <= old(d.At()) + 15
    ensures DecodeSymbol(d.bits, old(d.At()), lens) ==
            if sym <= MaxSym(lens) && d.At() <= |d.bits| then Some((sym, d.At())) else None
  {
    UsedCode(lens, d.bits, d.At());
    ghost var s, q := TablesDecode(t, lens, d.bits, d.At());
    sym := ReadSymbol(d, t);
  }

  method LengthCode(c: nat) returns (extra: nat, base: nat)
    requires c <= 28
    ensures extra == LengthExtra(c) <= 5 && base == LengthBase(c)
  {
    LengthTable(c);
    extra, base := LENGTH_BITS[c], LENGTH_BASE[c];
  }

  method DistanceCode(c: nat) returns (extra: nat, base: nat)
    requires c <= 29
    ensures extra == DistanceExtra(c) <= 13 && base == DistanceBase(c) > 0
  {
    DistanceTable(c);
    extra, base := DIST_BITS[c], DIST_BASE[c];
  }

  lemma NoDistance(bits: seq<Bit>, p: nat, c: nat, dl: seq<nat>)
    requires var r := DecodeSymbol(bits, p + LengthExtra(c), dl); r.None? || r.value.0 > 29
    ensures ReadMatch(bits, p, c, dl).None?
  {
  }

  /** Reading a match whose distance symbol d ends at q, if that symbol is real. */
  lemma MatchIs(bits: seq<Bit>, p: nat, c: nat, dl: seq<nat>, d: nat, q: nat)
    requires d <= 29 && q >= p + LengthExtra(c)
    requires DecodeSymbol(bits, p + LengthExtra(c), dl) == if q <= |bits| then Some((d, q)) else None
    ensures ReadMatch(bits, p, c, dl) ==
            if q + DistanceExtra(d) > |bits| then None
            else Some((LengthBase(c) + Window(bits, p, LengthExtra(c)),
                       DistanceBase(d) + Window(bits, q, DistanceExtra(d)), q + DistanceExtra(d)))
  {
  }

  lemma NoRun(bits: seq<Bit>, p: nat, cl: seq<nat>, n: nat, acc: seq<nat>)
    requires |acc| < n && DecodeSymbol(bits, p, cl).None?
    ensures Lengths(bits, p, cl, n, acc).None?
  {
  }

  /** One step of reading code lengths, with a symbol that ends at q if it is real. */
  lemma RunIs(bits: seq<Bit>, p: nat, cl: seq<nat>, n: nat, acc: seq<nat>, s: nat, q: nat)
    requires p < q && |acc| < n
    requires DecodeSymbol(bits, p, cl) == if q <= |bits| then Some((s, q)) else None
    ensures Lengths(bits, p, cl, n, acc) ==
            if s == 16 && acc == [] then None
            else Lengths(bits, q + RunExtra(s), cl, n,
                         acc + Repeat(RunLength(s, acc), RunLeast(s) + Window(bits, q, RunExtra(s))))
  {
  }

  lemma CodeLengthCountFits(bits: seq<Bit>, p: nat)
    ensures 4 + Window(bits, p, 4) <= 19
  {
    WindowBound(bits, p, 4);
    assert Pow2(4) == 16;
  }

  class Inflater {
    const reader: BitReader
    const dest: array<Byte>
    var written: nat
    const ltree: Tree
    const dtree: Tree

    ghost predicate Valid()
      reads this, reader
    {
      && written <= dest.Length
      && reader.Settled()
      && ltree.Sized() && dtree.Sized() && ltree != dtree
      && ltree.counts != dtree.counts && ltree.counts != dtree.symbols
      && ltree.symbols != dtree.counts && ltree.symbols != dtree.symbols
    }

    ghost function Output(): seq<Byte>
      reads this, dest
      requires written <= dest.Length
    {
      dest[..written]
    }

    ghost predicate LiteralsReady(ll: seq<nat>)
      reads ltree, ltree.counts, ltree.symbols
    {
      && ValidCode(ll) && |ll| > 256 && ll[256] > 0
      && ltree.Represents(Completed(ll)) && ltree.maxSym == Min(MaxSym(ll), 285)
    }

    ghost predicate DistancesReady(dl: seq<nat>)
      reads dtree, dtree.counts, dtree.symbols
    {
      ValidCode(dl) && dtree.Represents(Completed(dl)) && dtree.maxSym == Min(MaxSym(dl), 29)
    }

    constructor (source: seq<Byte>, dest: array<Byte>)
      ensures Valid() && written == 0 && this.dest == dest
      ensures reader.source == source && reader.At() == 0
      ensures fresh(reader) && fresh(ltree) && fresh(dtree)
      ensures fresh(ltree.counts) && fresh(ltree.symbols) && fresh(dtree.counts) && fresh(dtree.symbols)
    {
      this.reader := new BitReader(source);
      this.dest := dest;
      written := 0;
      var lt := new Tree();
      var dt := new Tree();
      ltree, dtree := lt, dt;
    }

    /** The rest of a match whose length code is c. */
    method ReadLengthAndDistance(c: nat, ghost dl: seq<nat>) returns (ok: bool, length: nat, offs: nat)
      requires Valid() && DistancesReady(dl) && dtree.maxSym != -1 && c <= 28
      modifies reader
      ensures Valid() && reader.At() > old(reader.At())
      ensures ok ==> offs > 0
      ensures ReadMatch(reader.bits, old(reader.At()), c, dl) ==
              if ok && reader.At() <= |reader.bits| then Some((length, offs, reader.At())) else None
    {
      hide Completed, ValidCode, Window, ReadMatch, DecodeSymbol, MaxSym, ToBits;
      hide LengthExtra, LengthBase, DistanceExtra, DistanceBase;
      offs := 0;
      ghost var bits, p := reader.bits, reader.At();
      var extra, base := LengthCode(c);
      length := reader.GetBitsBase(extra, base);
      var dist := NextSymbol(reader, dtree, dl);
      ghost var q := reader.At();
      if dist < 0 || dist > dtree.maxSym || dist > 29 {
        NoDistance(bits, p, c, dl);
        return false, length, offs;
      }
      extra, base := DistanceCode(dist);
      offs := reader.GetBitsBase(extra, base);
      MatchIs(bits, p, c, dl, dist, q);
      ok := true;
    }

    /** One match: the length code c is already read. */
    method InflateMatch(c: nat, ghost dl: seq<nat>) returns (res: Status)
      requires Valid() && DistancesReady(dl) && dtree.maxSym != -1 && c <= 28
      modifies this, reader, dest
      ensures Valid() && reader.At() > old(reader.At())
      ensures old(written) <= written && forall i :: written <= i < dest.Length ==> dest[i] == old(dest[i])
      ensures MatchOutcome(res, ReadMatch(reader.bits, old(reader.At()), c, dl), old(Output()))
    {
      var ok, length, offs := ReadLengthAndDistance(c, dl);
      if !ok {
        return InvalidData;
      }
      if offs > written {
        return InvalidData;
      }
      if dest.Length - written < length {
        return OutputOverflow;
      }
      CopyMatch(offs, length);
      res := Ok;
    }

    ghost predicate MatchOutcome(res: Status, r: Option<(nat, nat, nat)>, out: seq<Byte>)
      reads this, reader, dest
      requires Valid()
    {
      match res
      case Ok =>
        if r.None? then reader.At() > |reader.bits|
        else 0 < r.value.1 <= |out| && reader.At() == r.value.2 && Output() == CopyBack(out, r.value.1, r.value.0)
      case InvalidData => r.None? || r.value.1 > |out|
      case OutputOverflow => r.None? || |out| + r.value.0 > dest.Length
    }

    method CopyMatch(offs: nat, length: nat)
      requires written + length <= dest.Length && 0 < offs <= written
      modifies this`written, dest
      ensures written == old(written) + length
      ensures Output() == CopyBack(old(Output()), offs, length)
      ensures forall i :: written <= i < dest.Length ==> dest[i] == old(dest[i])
    {
      hide CopyBack;
      ghost var out, n := Output(), written;
      CopyNothing(out, offs);
      for i := 0 to length
        modifies dest
        invariant dest[..n + i] == CopyBack(out, offs, i)
        invariant forall j :: n + i <= j < dest.Length ==> dest[j] == old(dest[j])
      {
        ghost var r := dest[..n + i];
        CopyOne(out, offs, i);
        assert r[|r| - offs] == dest[n + i - offs];
        dest[written + i] := dest[written + i - offs];
        assert dest[..n + i + 1] == r + [dest[n + i]];
      }
      written := written + length;
    }

    /** One symbol of compressed data; last if it ended the block. */
    method InflateSymbol(ghost ll: seq<nat>, ghost dl: seq<nat>) returns (res: Status, last: bool)
      requires Valid() && LiteralsReady(ll) && DistancesReady(dl)
      modifies this, reader, dest
      ensures Valid() && reader.At() > old(reader.At())
      ensures old(written) <= written && forall i :: written <= i < dest.Length ==> dest[i] == old(dest[i])
      ensures var r := Symbols(reader.bits, old(reader.At()), ll, dl, old(Output()));
              if res == Ok && !last
              then old(reader.At()) < |reader.bits| && Symbols(reader.bits, reader.At(), ll, dl, Output()) == r
              else Outcome(res, r, Output(), reader.At(), dest.Length)
    {
      hide Completed, ValidCode, Tree.Represents, MaxSym, DecodeSymbol, ReadMatch, CopyBack;
      MaxSymIs(ll);
      ghost var bits, out := reader.bits, Output();
      last := false;
      var sym := NextSymbol(reader, ltree, ll);
      if reader.overflow {
        return InvalidData, last;
      }
      if sym < 256 {
        if written == dest.Length {
          return OutputOverflow, last;
        }
        dest[written] := sym;
        written := written + 1;
        assert Output() == out + [sym];
      } else {
        if sym == 256 {
          return Ok, true;
        }
        if sym > ltree.maxSym || sym - 257 > 28 || dtree.maxSym == -1 {
          NoMatch(bits, reader.At(), sym - 257, dl, dtree.maxSym == -1);
          return InvalidData, last;
        }
        res := InflateMatch(sym - 257, dl);
        return res, last;
      }
      res := Ok;
    }

    method InflateBlockData(ghost ll: seq<nat>, ghost dl: seq<nat>) returns (res: Status)
      requires Valid() && LiteralsReady(ll) && DistancesReady(dl)
      modifies this, reader, dest
      ensures Valid() && reader.At() > old(reader.At())
      ensures old(written) <= written && forall i :: written <= i < dest.Length ==> dest[i] == old(dest[i])
      ensures var r := Symbols(reader.bits, old(reader.At()), ll, dl, old(Output()));
              Outcome(res, r, Output(), reader.At(), dest.Length)
    {
      hide Completed, ValidCode;
      ghost var r := Symbols(reader.bits, reader.At(), ll, dl, Output());
      while true
        invariant Valid() && reader.At() >= old(reader.At())
        invariant old(written) <= written && forall i :: written <= i < dest.Length ==> dest[i] == old(dest[i])
        invariant Symbols(reader.bits, reader.At(), ll, dl, Output()) == r
        decreases |reader.bits| - reader.At()
      {
        var last;
        res, last := InflateSymbol(ll, dl);
        if res != Ok || last {
          return;
        }
      }
    }

    /** The hclen three-bit lengths of the code length code, in the transmitted order. */
    method ReadCodeLengthLengths(lengths: array<nat>, hclen: nat)
      requires Valid() && lengths.Length == 320 && hclen <= 19
      modifies reader, lengths
      ensures Valid() && reader.At() == old(reader.At()) + 3 * hclen
      ensures lengths[..19] == CodeLengthLengths(reader.bits, old(reader.At()), hclen)
    {
      hide Window;
      ghost var bits, p := reader.bits, reader.At();
      for i := 0 to 19
        modifies lengths
        invariant forall s :: 0 <= s < i ==> lengths[s] == 0
      {
        lengths[i] := 0;
      }
      for i := 0 to hclen
        invariant Valid() && reader.At() == p + 3 * i
        invariant forall s :: 0 <= s < 19 ==>
                    lengths[s] == if OrderIndex(s) < i then Window(bits, p + 3 * OrderIndex(s), 3) else 0
      {
        forall s | 0 <= s < 19
          ensures CODE_LENGTH_ORDER[i] < 19 && (OrderIndex(s) == i <==> CODE_LENGTH_ORDER[i] == s)
        {
          OrderIndexInverse(i, s);
        }
        var value := reader.GetBits(3);
        lengths[CODE_LENGTH_ORDER[i]] := value;
      }
    }

    /** One code length symbol: the length it stands for and how often, given the lengths so far. */
    method ReadRun(lengths: array<nat>, num: nat, ghost cl: seq<nat>, ghost n: nat)
        returns (ok: bool, what: nat, times: nat)
      requires Valid() && num < n <= lengths.Length && CodeLengthsReady(cl)
      modifies reader
      ensures Valid() && reader.At() > old(reader.At())
      ensures ok ==> times > 0
      ensures Lengths(reader.bits, old(reader.At()), cl, n, lengths[..num]) ==
              if ok then Lengths(reader.bits, reader.At(), cl, n, lengths[..num] + Repeat(what, times)) else None
    {
      MaxSymIs(cl);
      hide Completed, ValidCode, Lengths;
      what, times := 0, 1;
      ghost var bits, p, acc := reader.bits, reader.At(), lengths[..num];
      var sym := NextSymbol(reader, ltree, cl);
      ghost var q := reader.At();
      if sym < 0 || sym > ltree.maxSym {
        NoRun(bits, p, cl, n, acc);
        return false, what, times;
      }
      RunIs(bits, p, cl, n, acc, sym, q);
      if sym == 16 {
        if num == 0 {
          return false, what, times;
        }
        what := lengths[num - 1];
        times := reader.GetBitsBase(2, 3);
      } else if sym == 17 {
        times := reader.GetBitsBase(3, 3);
      } else if sym == 18 {
        times := reader.GetBitsBase(7, 11);
      } else {
        what := sym;
      }
      ok := true;
      assert what == RunLength(sym, acc) && times == RunLeast(sym) + Window(bits, q, RunExtra(sym));
    }

    ghost predicate CodeLengthsReady(cl: seq<nat>)
      reads ltree, ltree.counts, ltree.symbols
    {
      && ValidCode(cl) && |cl| == 19 && MaxSym(cl) >= 0
      && ltree.Represents(Completed(cl)) && ltree.maxSym == MaxSym(cl)
    }

    /** The n code lengths of a dynamic block. */
    method ReadLengths(lengths: array<nat>, n: nat, ghost cl: seq<nat>) returns (res: Status)
      requires Valid() && n <= lengths.Length && CodeLengthsReady(cl)
      requires lengths != ltree.counts && lengths != ltree.symbols
      modifies reader, lengths
      ensures Valid() && reader.At() >= old(reader.At())
      ensures Lengths(reader.bits, old(reader.At()), cl, n, []) ==
              if res == Ok && reader.At() <= |reader.bits| then Some((lengths[..n], reader.At())) else None
    {
      hide Completed, ValidCode;
      ghost var r := Lengths(reader.bits, reader.At(), cl, n, []);
      var num := 0;
      assert lengths[..0] == [];
      while num < n
        invariant Valid() && CodeLengthsReady(cl) && num <= n && reader.At() >= old(reader.At())
        invariant Lengths(reader.bits, reader.At(), cl, n, lengths[..num]) == r
      {
        var ok, what, times := ReadRun(lengths, num, cl, n);
        if !ok || times > n - num {
          return InvalidData;
        }
        num := Fill(lengths, num, what, times);
      }
      res := Ok;
    }

    /** The three counts a dynamic block starts with. */
    method ReadCounts() returns (hlit: nat, hdist: nat, hclen: nat)
      requires Valid()
      modifies reader
      ensures Valid() && reader.At() == old(reader.At()) + 14
      ensures var p := old(reader.At());
              && hlit == 257 + Window(reader.bits, p, 5) && hdist == 1 + Window(reader.bits, p + 5, 5)
              && hclen == 4 + Window(reader.bits, p + 10, 4)
    {
      hide Window;
      hlit := reader.GetBitsBase(5, 257);
      hdist := reader.GetBitsBase(5, 1);
      hclen := reader.GetBitsBase(4, 4);
    }

    /** All code lengths of a dynamic block. */
    method ReadAllLengths(lengths: array<nat>) returns (res: Status, hlit: nat, hdist: nat)
      requires Valid() && lengths.Length == 320
      requires lengths != ltree.counts && lengths != ltree.symbols
      modifies reader, lengths, ltree, ltree.counts, ltree.symbols
      ensures Valid() && reader.At() >= old(reader.At())
      ensures res == Ok ==> 257 <= hlit <= 286 && 1 <= hdist <= 30
      ensures DynamicLengths(reader.bits, old(reader.At())) ==
              if res == Ok && reader.At() <= |reader.bits|
              then Some((lengths[..hlit + hdist], hlit, reader.At())) else None
    {
      hide Completed, ValidCode, Window, Lengths, CodeLengthLengths, MaxSym, Tree.Represents;
      ghost var bits, p := reader.bits, reader.At();
      var hclen;
      hlit, hdist, hclen := ReadCounts();
      if hlit > 286 || hdist > 30 {
        return InvalidData, hlit, hdist;
      }
      CodeLengthCountFits(bits, p + 10);
      ReadCodeLengthLengths(lengths, hclen);
      ghost var cl := lengths[..19];
      res := BuildTree(ltree, lengths[..19]);
      if res != Ok {
        return;
      }
      if ltree.maxSym == -1 {
        return InvalidData, hlit, hdist;
      }
      res := ReadLengths(lengths, hlit + hdist, cl);
    }

    /** The codes of a dynamic block. */
    method DecodeTrees() returns (res: Status, ghost ll: seq<nat>, ghost dl: seq<nat>)
      requires Valid()
      modifies reader, ltree, ltree.counts, ltree.symbols, dtree, dtree.counts, dtree.symbols
      ensures Valid() && reader.At() >= old(reader.At())
      ensures res == Ok ==> LiteralsReady(ll) && DistancesReady(dl)
      ensures DynamicCodes(reader.bits, old(reader.At())) ==
              if res == Ok && reader.At() <= |reader.bits| then Some((ll, dl, reader.At())) else None
    {
      hide Completed, ValidCode, DynamicLengths;
      ll, dl := [], [];
      var lengths := new nat[320];
      var hlit, hdist;
      res, hlit, hdist := ReadAllLengths(lengths);
      if res != Ok {
        return;
      }
      ghost var all := lengths[..hlit + hdist];
      ll, dl := all[..hlit], all[hlit..];
      assert lengths[256] == ll[256];
      if lengths[256] == 0 {
        return InvalidData, ll, dl;
      }
      assert lengths[..hlit] == ll && lengths[hlit..hlit + hdist] == dl;
      res := BuildTree(ltree, lengths[..hlit]);
      if res != Ok {
        return;
      }
      res := BuildTree(dtree, lengths[hlit..hlit + hdist]);
    }

    /** A stored block, from a byte boundary on. */
    method InflateStored() returns (res: Status)
      requires Valid() && reader.bitcount == 0
      modifies this, reader, dest
      ensures Valid() && reader.At() >= old(reader.At())
      ensures old(written) <= written && forall i :: written <= i < dest.Length ==> dest[i] == old(dest[i])
      ensures Outcome(res, Stored(reader.source, old(reader.At()), old(Output())), Output(), reader.At(), dest.Length)
    {
      if |reader.source| - reader.pos < 4 {
        return InvalidData;
      }
      var length := Le16(reader.source, reader.pos);
      var invlength := Le16(reader.source, reader.pos + 2);
      if length != 65535 - invlength {
        return InvalidData;
      }
      reader.SkipBytes(4);
      if |reader.source| - reader.pos < length {
        return InvalidData;
      }
      if dest.Length - written < length {
        return OutputOverflow;
      }
      CopyStored(length);
      res := Ok;
    }

    method CopyStored(length: nat)
      requires Valid() && reader.bitcount == 0 && !reader.overflow
      requires reader.pos + length <= |reader.source| && written + length <= dest.Length
      modifies this, reader, dest
      ensures Valid() && reader.At() == old(reader.At()) + 8 * length
      ensures written == old(written) + length && forall i :: written <= i < dest.Length ==> dest[i] == old(dest[i])
      ensures Output() == old(Output()) + reader.source[old(reader.pos)..old(reader.pos) + length]
    {
      ghost var out, k := Output(), reader.pos;
      var left: nat := length;
      while left != 0
        invariant Valid() && reader.bitcount == 0 && !reader.overflow && left <= length
        invariant reader.pos == k + (length - left) && reader.At() == old(reader.At()) + 8 * (length - left)
        invariant written == old(written) + (length - left)
        invariant forall i :: written <= i < dest.Length ==> dest[i] == old(dest[i])
        invariant Output() == out + reader.source[k..reader.pos]
      {
        dest[written] := reader.source[reader.pos];
        written := written + 1;
        assert Output() == dest[..written - 1] + [reader.source[reader.pos]];
        reader.SkipBytes(1);
        left := left - 1;
      }
    }

    method InflateFixed() returns (res: Status)
      requires Valid()
      modifies this, reader, dest, ltree, ltree.counts, ltree.symbols, dtree, dtree.counts, dtree.symbols
      ensures Valid() && reader.At() >= old(reader.At())
      ensures old(written) <= written && forall i :: written <= i < dest.Length ==> dest[i] == old(dest[i])
      ensures Outcome(res, Block(reader.source, old(reader.At()), 1, old(Output())), Output(), reader.At(), dest.Length)
    {
      hide Completed, ValidCode, Symbols, MaxSym, FixedLiterals, FixedDistances, Tree.Represents, ToBits,
        Stored, DynamicCodes;
      FixedSizes();
      FixedReady();
      BuildFixedLiterals(ltree);
      BuildFixedDistances(dtree);
      res := InflateBlockData(FixedLiterals(), FixedDistances());
    }

    method InflateDynamic() returns (res: Status)
      requires Valid()
      modifies this, reader, dest, ltree, ltree.counts, ltree.symbols, dtree, dtree.counts, dtree.symbols
      ensures Valid() && reader.At() >= old(reader.At())
      ensures old(written) <= written && forall i :: written <= i < dest.Length ==> dest[i] == old(dest[i])
      ensures Outcome(res, Block(reader.source, old(reader.At()), 2, old(Output())), Output(), reader.At(), dest.Length)
    {
      hide Completed, ValidCode, DynamicCodes;
      ghost var ll, dl;
      res, ll, dl := DecodeTrees();
      if res == Ok {
        res := InflateBlockData(ll, dl);
      }
    }

    /** One block, after its three header bits. */
    method InflateBlock(btype: nat) returns (res: Status)
      requires Valid()
      modifies this, reader, dest, ltree, ltree.counts, ltree.symbols, dtree, dtree.counts, dtree.symbols
      ensures Valid() && reader.At() >= old(reader.At())
      ensures old(written) <= written && forall i :: written <= i < dest.Length ==> dest[i] == old(dest[i])
      ensures Outcome(res, Block(reader.source, old(reader.At()), btype, old(Output())),
                      Output(), reader.At(), dest.Length)
    {
      if btype == 0 {
        reader.Align();
        res := InflateStored();
      } else if btype == 1 {
        res := InflateFixed();
      } else if btype == 2 {
        res := InflateDynamic();
      } else {
        res := InvalidData;
      }
    }
  }

  /** The fixed codes are accepted codes that need no dummy. */
  lemma FixedSizes()
    ensures |FixedLiterals()| == 288 && FixedLiterals()[256] > 0 && |FixedDistances()| == 32
  {
  }

  lemma FixedReady()
    ensures ValidCode(FixedLiterals()) && Completed(FixedLiterals()) == FixedLiterals()
    ensures ValidCode(FixedDistances()) && Completed(FixedDistances()) == FixedDistances()
    ensures MaxSym(FixedLiterals()) == 287 && MaxSym(FixedDistances()) == 31
  {
    FixedLevels();
    FixedDistanceLevels();
  }

  /** tinf_uncompress: the status is exact, and on Ok so is the output. */
  method Uncompress(dest: array<Byte>, source: seq<Byte>) returns (res: Status, destLen: nat)
    requires dest.Length < 0x8000_0000
    modifies dest
    ensures destLen <= dest.Length
    ensures res == Ok ==> Inflate(source) == Some(dest[..destLen])
    ensures res == Ok ==> forall i :: destLen <= i < dest.Length ==> dest[i] == old(dest[i])
    ensures res == InvalidData ==> Inflate(source).None?
    ensures res == OutputOverflow ==> Inflate(source).None? || |Inflate(source).value| > dest.Length
  {
    hide Block, ToBits;
    var d := new Inflater(source, dest);
    ghost var r := Blocks(source, 0, []);
    destLen := dest.Length;
    var bfinal := 0;
    while bfinal == 0
      invariant d.Valid() && d.dest == dest && d.reader.source == source
      invariant fresh(d) && fresh(d.reader) && fresh(d.ltree) && fresh(d.dtree)
      invariant fresh(d.ltree.counts) && fresh(d.ltree.symbols) && fresh(d.dtree.counts) && fresh(d.dtree.symbols)
      invariant forall i :: d.written <= i < dest.Length ==> dest[i] == old(dest[i])
      invariant if bfinal == 0 then Blocks(source, d.reader.At(), d.Output()) == r
                else r == Some((d.Output(), d.reader.At()))
      decreases bfinal == 0, 8 * |source| - d.reader.At()
    {
      bfinal := d.reader.GetBits(1);
      var btype := d.reader.GetBits(2);
      res := d.InflateBlock(btype);
      if res != Ok {
        return;
      }
    }
    destLen := d.written;
    res := Ok;
  }

  method Fill(lengths: array<nat>, start: nat, what: nat, times: nat) returns (num: nat)
    requires start + times <= lengths.Length
    modifies lengths
    ensures num == start + times && lengths[..num] == old(lengths[..start]) + Repeat(what, times)
  {
    num := start;
    var length := times;
    while length != 0
      invariant num + length == start + times
      invariant lengths[..start] == old(lengths[..start])
      invariant forall i :: start <= i < num ==> lengths[i] == what
    {
      lengths[num] := what;
      num := num + 1;
      length := length - 1;
    }
  }

  /** Without distance codes no match can be read. */
  lemma NoMatch(bits: seq<Bit>, p: nat, c: nat, dl: seq<nat>, none: bool)
    requires ValidCode(dl)
    ensures none && MaxSym(dl) == -1 ==> ReadMatch(bits, p, c, dl).None?
  {
    if none && MaxSym(dl) == -1 {
      UsedCode(dl, bits, p + LengthExtra(c));
    }
  }
}
