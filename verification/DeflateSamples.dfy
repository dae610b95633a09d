/**
  The fixed codes, the order of the code lengths and the runs in numbers, and a few streams byte
  by byte.
*/
module DeflateSamples {
  import opened Numbers
  import opened BitStream
  import opened Huffman
  import opened Deflate
  import opened TreeBuilding
  import opened DeflateCodes
  import opened DeflateEncoding
  import opened DeflateStreams
  import opened DeflateItems

  // ---- The fixed codes (section 3.2.6) ----

  /** The bit patterns 00110000 to 10111111, 110010000 to 111111111, 0000000 to 0010111 and 11000000
      to 11000111. */
  lemma FixedLiteralCodes(s: nat)
    requires s < 288
    ensures 0 <= s <= 143 ==> FixedLiterals()[s] == 8 && Code(FixedLiterals(), s) == 48 + s
    ensures 144 <= s <= 255 ==> FixedLiterals()[s] == 9 && Code(FixedLiterals(), s) == 400 + (s - 144)
    ensures 256 <= s <= 279 ==> FixedLiterals()[s] == 7 && Code(FixedLiterals(), s) == s - 256
    ensures 280 <= s <= 287 ==> FixedLiterals()[s] == 8 && Code(FixedLiterals(), s) == 192 + (s - 280)
  {
    hide Rank, FirstCode, Base, KraftSum;
    FixedLevels();
    FixedRank(FixedLiterals()[s], s);
  }

  lemma FixedDistanceCodes(d: nat)
    requires d < 32
    ensures FixedDistances()[d] == 5 && Code(FixedDistances(), d) == d
  {
    hide Rank, FirstCode, Base, KraftSum;
    FixedDistanceLevels();
    FixedDistanceRank(5, d);
  }

  // ---- Dynamic headers (section 3.2.7) ----

  /** The i-th number sent is the code length of the i-th symbol of this list. */
  lemma CodeLengthOrder(bits: seq<Bit>, p: nat, n: nat, i: nat)
    requires n <= 19 && i < 19
    ensures var s := [16, 17, 18, 0, 8, 7, 9, 6, 10, 5, 11, 4, 12, 3, 13, 2, 14, 1, 15][i];
            CodeLengthLengths(bits, p, n)[s] == if i < n then Window(bits, p + 3 * i, 3) else 0
  {
    hide Window;
    OrderIndexInverse(i, CODE_LENGTH_ORDER[i]);
  }

  /** The three counts, and that there are as many code lengths as they say. */
  lemma HeaderCounts(bits: seq<Bit>, p: nat)
    requires DynamicCodes(bits, p).Some?
    ensures var (ll, dl, _) := DynamicCodes(bits, p).value;
            && |ll| == 257 + Window(bits, p, 5) <= 286 && |dl| == 1 + Window(bits, p + 5, 5) <= 30
            && p + 14 + 3 * (4 + Window(bits, p + 10, 4)) <= |bits|
            && ll[256] > 0 && ValidCode(ll) && ValidCode(dl)
            && var cl := CodeLengthLengths(bits, p + 14, 4 + Window(bits, p + 10, 4)); ValidCode(cl) && MaxSym(cl) >= 0
  {
    hide Window, Lengths, ValidCode, CodeLengthLengths, MaxSym;
  }

  /** The codes a dynamic block may use: none at all, a single code of one bit, or one whose lengths
      fill the code space exactly. */
  lemma ValidCodeIff(lens: seq<nat>)
    requires Short(lens)
    ensures ValidCode(lens) <==>
            || (forall i :: 0 <= i < |lens| ==> lens[i] == 0)
            || (exists s :: 0 <= s < |lens| && lens[s] == 1 && forall i :: 0 <= i < |lens| && i != s ==> lens[i] == 0)
            || KraftSum(lens) == 32768
  {
    Pow2Values();
    hide Pow2, KraftSum, Base, Count;
    if NumCodes(lens) == 0 {
      NoneUsed(lens);
    }
    if NumCodes(lens) == 1 && Count(lens, 1) == 1 {
      SingleCode(lens);
    }
    if forall i :: 0 <= i < |lens| ==> lens[i] == 0 {
      AllUnused(lens, 16);
    }
    if s :| 0 <= s < |lens| && lens[s] == 1 && forall i :: 0 <= i < |lens| && i != s ==> lens[i] == 0 {
      OneUsed(lens, s);
    }
  }

  lemma NoneUsed(lens: seq<nat>)
    requires Short(lens) && NumCodes(lens) == 0
    ensures forall i :: 0 <= i < |lens| ==> lens[i] == 0
  {
    hide NumCodes, Base;
    forall i | 0 <= i < |lens|
      ensures lens[i] == 0
    {
      if lens[i] > 0 {
        SlotInRange(lens, i);
      }
    }
  }

  lemma {:induction false} RankIs(lens: seq<nat>, s: int, l: nat, n: nat)
    requires n <= |lens| && l > 0 && forall i :: 0 <= i < |lens| && i != s ==> lens[i] == 0
    ensures Rank(lens, l, n) == if 0 <= s < n && lens[s] == l then 1 else 0
  {
    if n > 0 {
      RankIs(lens, s, l, n - 1);
    }
  }

  lemma {:induction false} AllUnused(lens: seq<nat>, l: nat)
    requires forall i :: 0 <= i < |lens| ==> lens[i] == 0
    ensures Base(lens, l) == 0
  {
    if l > 0 {
      AllUnused(lens, l - 1);
      if l > 1 {
        RankIs(lens, -1, l - 1, |lens|);
      }
    }
  }

  lemma OneUsed(lens: seq<nat>, s: nat)
    requires s < |lens| && lens[s] == 1 && forall i :: 0 <= i < |lens| && i != s ==> lens[i] == 0
    ensures NumCodes(lens) == 1 && Count(lens, 1) == 1
  {
    RankIs(lens, s, 1, |lens|);
    OneBase(lens, s, 16);
  }

  lemma {:induction false} OneBase(lens: seq<nat>, s: nat, l: nat)
    requires s < |lens| && lens[s] == 1 && forall i :: 0 <= i < |lens| && i != s ==> lens[i] == 0
    ensures Base(lens, l) == if l >= 2 then 1 else 0
  {
    if l > 0 {
      OneBase(lens, s, l - 1);
      if l > 1 {
        RankIs(lens, s, l - 1, |lens|);
      }
    }
  }

  /** What ends a block and what spoils it: symbol 256 ends it; symbols 286 and 287, distance codes 30
      and 31, and distances beyond the output make the stream invalid. */
  lemma SymbolsEnd(bits: seq<Bit>, p: nat, ll: seq<nat>, dl: seq<nat>, out: seq<Byte>)
    requires DecodeSymbol(bits, p, ll).Some?
    ensures var (s, q) := DecodeSymbol(bits, p, ll).value;
            && (s == 256 ==> Symbols(bits, p, ll, dl, out) == Some((out, q)))
            && (s >= 286 ==> Symbols(bits, p, ll, dl, out) == None)
            && (257 <= s <= 285 ==>
                  var m := ReadMatch(bits, q, s - 257, dl);
                  m.None? || m.value.1 > |out| ==> Symbols(bits, p, ll, dl, out) == None)
  {
    hide ReadMatch, CopyBack;
  }

  lemma DistanceCodesEnd(bits: seq<Bit>, p: nat, c: nat, dl: seq<nat>)
    ensures var d := DecodeSymbol(bits, p + LengthExtra(c), dl);
            d.None? || d.value.0 >= 30 ==> ReadMatch(bits, p, c, dl).None?
  {
    hide Window;
  }

  /** Blocks that stand for nothing: type 3, a stored block cut short or whose length and complement
      do not match, and code lengths that begin with a repetition or run over their number. */
  lemma BlocksRefused(src: seq<Byte>, p: nat, out: seq<Byte>)
    ensures Block(src, p, 3, out) == None
    ensures (p + 7) / 8 + 4 > |src| ==> Block(src, p, 0, out) == None
    ensures (p + 7) / 8 + 4 <= |src| ==>
              var k := (p + 7) / 8;
              var n, m: int := src[k] as int + 256 * src[k + 1] as int, src[k + 2] as int + 256 * src[k + 3] as int;
              n + m != 65535 || k + 4 + n > |src| ==> Block(src, p, 0, out) == None
  {
  }

  lemma LengthsRefused(bits: seq<Bit>, p: nat, cl: seq<nat>, n: nat, acc: seq<nat>)
    requires DecodeSymbol(bits, p, cl).Some? && |acc| < n && |cl| == 19
    ensures var (s, q) := DecodeSymbol(bits, p, cl).value;
            && (s == 16 && acc == [] ==> Lengths(bits, p, cl, n, acc) == None)
            && (s == 16 && |acc| + 3 + Window(bits, q, 2) > n ==> Lengths(bits, p, cl, n, acc) == None)
            && (s == 17 && |acc| + 3 + Window(bits, q, 3) > n ==> Lengths(bits, p, cl, n, acc) == None)
            && (s == 18 && |acc| + 11 + Window(bits, q, 7) > n ==> Lengths(bits, p, cl, n, acc) == None)
  {
    hide Window;
    var (s, q) := DecodeSymbol(bits, p, cl).value;
    if s >= 16 && !(s == 16 && acc == []) && p <= |bits| {
      var run := Repeat(RunLength(s, acc), RunLeast(s) + Window(bits, q, RunExtra(s)));
      if |acc + run| > n {
        TooLong(bits, q + RunExtra(s), cl, n, acc + run);
      }
    }
  }

  lemma TooLong(bits: seq<Bit>, p: nat, cl: seq<nat>, n: nat, acc: seq<nat>)
    requires |acc| > n
    ensures Lengths(bits, p, cl, n, acc) == None
  {
  }

  /** What a code length symbol adds: itself, or copies of the previous length, or zeros. */
  lemma RunMeans(acc: seq<nat>, s: nat, k: nat, x: nat)
    requires WritesRun(s, x, k)
    ensures Unrolled(acc, [Run(s, x)]) ==
            if s <= 15 then Some(acc + [s])
            else if s >= 17 then Some(acc + seq(k, _ => 0))
            else if acc == [] then None
            else Some(acc + seq(k, _ => acc[|acc| - 1]))
  {
    RunCodes(s, x, k);
    hide WritesRun;
    var r := Run(s, x);
    assert [r][1..] == [];
    if s != 16 || acc != [] {
      var more := Repeat(RunLength(s, acc), RunLeast(s) + x);
      assert Unrolled(acc, [r]) == Some(acc + more);
      if s <= 15 {
        assert more == [s];
      } else if s >= 17 {
        assert more == seq(k, _ => 0);
      } else {
        assert more == seq(k, _ => acc[|acc| - 1]);
      }
    }
  }

  // ---- Streams byte by byte ----

  lemma EightBits(bits: seq<Bit>, p: nat)
    ensures Window(bits, p, 8) ==
            BitAt(bits, p) + 2 * BitAt(bits, p + 1) + 4 * BitAt(bits, p + 2) + 8 * BitAt(bits, p + 3) +
            16 * BitAt(bits, p + 4) + 32 * BitAt(bits, p + 5) + 64 * BitAt(bits, p + 6) + 128 * BitAt(bits, p + 7)
  {
    assert Window(bits, p + 7, 1) == BitAt(bits, p + 7);
    assert Window(bits, p + 5, 3) == BitAt(bits, p + 5) + 2 * Window(bits, p + 6, 2);
    assert Window(bits, p + 3, 5) == BitAt(bits, p + 3) + 2 * Window(bits, p + 4, 4);
    assert Window(bits, p + 1, 7) == BitAt(bits, p + 1) + 2 * Window(bits, p + 2, 6);
    assert Window(bits, p + 6, 2) == BitAt(bits, p + 6) + 2 * BitAt(bits, p + 7);
    assert Window(bits, p + 4, 4) == BitAt(bits, p + 4) + 2 * BitAt(bits, p + 5) + 4 * Window(bits, p + 6, 2);
    assert Window(bits, p + 2, 6) == BitAt(bits, p + 2) + 2 * BitAt(bits, p + 3) + 4 * Window(bits, p + 4, 4);
    assert Window(bits, p, 8) == BitAt(bits, p) + 2 * BitAt(bits, p + 1) + 4 * Window(bits, p + 2, 6);
  }

  /** The codes of an `a`, of the end of a block, of the longest match and of distance 1. */
  lemma SampleCodes()
    ensures SymbolBits(FixedLiterals(), 97) == [1, 0, 0, 1, 0, 0, 0, 1]
    ensures SymbolBits(FixedLiterals(), 256) == [0, 0, 0, 0, 0, 0, 0]
    ensures SymbolBits(FixedLiterals(), 285) == [1, 1, 0, 0, 0, 1, 0, 1]
    ensures SymbolBits(FixedDistances(), 0) == [0, 0, 0, 0, 0]
  {
    hide FixedLiterals, FixedDistances, Code, CodeDigits, SymbolBits;
    FixedSymbol(97, 145, 8);
    FixedSymbol(256, 0, 7);
    FixedSymbol(285, 197, 8);
    FixedDistanceCodes(0);
    DistanceSymbol(0);
    DigitsOf145();
    DigitsOf197();
    DigitsOf0();
  }

  lemma FixedSymbol(s: nat, v: nat, n: nat)
    requires s < 288 && ((s <= 143 && v == 48 + s && n == 8) || (256 <= s <= 279 && v == s - 256 && n == 7) ||
                         (280 <= s && v == s - 88 && n == 8))
    ensures SymbolBits(FixedLiterals(), s) == CodeDigits(v, n)
  {
    hide FixedLiterals, Code, CodeDigits;
    FixedLiteralCodes(s);
  }

  lemma DistanceSymbol(d: nat)
    requires d < 32
    ensures SymbolBits(FixedDistances(), d) == CodeDigits(d, 5)
  {
    hide FixedDistances, Code, CodeDigits;
    FixedDistanceCodes(d);
  }

  lemma DigitsOf145()
    ensures CodeDigits(145, 8) == [1, 0, 0, 1, 0, 0, 0, 1]
  {
    assert CodeDigits(9, 4) == [1, 0, 0, 1];
  }

  lemma DigitsOf197()
    ensures CodeDigits(197, 8) == [1, 1, 0, 0, 0, 1, 0, 1]
  {
    assert CodeDigits(12, 4) == [1, 1, 0, 0];
  }

  lemma DigitsOf0()
    ensures CodeDigits(0, 5) == [0, 0, 0, 0, 0] && CodeDigits(0, 7) == [0, 0, 0, 0, 0, 0, 0]
  {
    assert CodeDigits(0, 3) == [0, 0, 0];
  }

  /** A final fixed block with the given data bits. */
  lemma FixedStream(ts: seq<Token>, data: seq<Bit>)
    requires ChunkWritable(Fixed(ts)) && DataBits(ts, FixedLiterals(), FixedDistances()) == data
    ensures StreamBits(0, [Fixed(ts)]) == [1, 1, 0] + data
  {
    hide DataBits, Writable, FixedLiterals, FixedDistances;
    assert ExtraDigits(1, 1) == [1] && ExtraDigits(1, 2) == [1, 0];
    var c := Fixed(ts);
    assert ChunkBits(0, c, true) == [1] + ([1, 0] + data);
  }

  /** The stream of a single `a`. */
  lemma OneLetter()
    ensures Inflate([0x4B, 0x04, 0x00]) == Some([0x61])
  {
    var items, ts := [Plain(97)], [Literal(97)];
    assert items[1..] == [] && ts[1..] == [] && [] + [97] == [97];
    assert ItemMeaning([97], []) == Some([97]);
    assert ItemMeaning([], items) == Some([97]);
    hide ItemMeaning;
    ItemsInvert(items, ts);
    hide Inflate, Usable, FixedLiterals, FixedDistances;
    SampleCodes();
    var data := [1, 0, 0, 1, 0, 0, 0, 1] + [0, 0, 0, 0, 0, 0, 0];
    assert DataBits(ts, FixedLiterals(), FixedDistances()) == data;
    FixedStream(ts, data);
    OneLetterPacked([1, 1, 0] + data);
  }

  lemma OneLetterPacked(bits: seq<Bit>)
    requires bits == [1, 1, 0] + ([1, 0, 0, 1, 0, 0, 0, 1] + [0, 0, 0, 0, 0, 0, 0])
    ensures Pack(bits) == [0x4B, 0x04, 0x00]
  {
    hide Window;
    EightBits(bits, 0);
    EightBits(bits, 8);
    EightBits(bits, 16);
  }

  lemma {:induction false} SameLetter(out: seq<Byte>, b: Byte, n: nat)
    requires out != [] && forall i :: 0 <= i < |out| ==> out[i] == b
    ensures CopyBack(out, 1, n) == seq(|out| + n, _ => b)
  {
    if n > 0 {
      SameLetter(out, b, n - 1);
    }
  }

  /** An `a` and a match of length 258: length symbol 285, no extra bits, distance 1. */
  lemma LongestMatch()
    ensures Inflate([0x4B, 0x1C, 0x05, 0x00]) == Some(seq(259, _ => 0x61))
  {
    var items, ts := [Plain(97), Copy(258, 1)], [Literal(97), Match(28, 0, 0, 0)];
    LongestItems(items);
    LengthCodes(28, 0, 258);
    DistanceCodes(0, 0, 1);
    hide ItemMeaning, WritesLength, WritesDistance;
    ItemsInvert(items, ts);
    hide Inflate, Usable, FixedLiterals, FixedDistances;
    var data := [1, 0, 0, 1, 0, 0, 0, 1] + ([1, 1, 0, 0, 0, 1, 0, 1] + [0, 0, 0, 0, 0] + [0, 0, 0, 0, 0, 0, 0]);
    LongestData(ts);
    FixedStream(ts, data);
    LongestPacked([1, 1, 0] + data);
  }

  lemma LongestItems(items: seq<Item>)
    requires items == [Plain(97), Copy(258, 1)]
    ensures ItemMeaning([], items) == Some(seq(259, _ => 97))
  {
    hide CopyBack;
    assert items[1..] == [Copy(258, 1)] && items[1..][1..] == [] && [] + [97] == [97];
    SameLetter([97], 97, 258);
    assert ItemMeaning(CopyBack([97], 1, 258), []) == Some(CopyBack([97], 1, 258));
    assert ItemMeaning([97], items[1..]) == Some(CopyBack([97], 1, 258));
  }

  lemma LongestData(ts: seq<Token>)
    requires ts == [Literal(97), Match(28, 0, 0, 0)] && Writable(ts, FixedLiterals(), FixedDistances())
    ensures DataBits(ts, FixedLiterals(), FixedDistances()) ==
            [1, 0, 0, 1, 0, 0, 0, 1] + ([1, 1, 0, 0, 0, 1, 0, 1] + [0, 0, 0, 0, 0] + [0, 0, 0, 0, 0, 0, 0])
  {
    hide FixedLiterals, FixedDistances, Usable, SymbolBits;
    SampleCodes();
    var ll, dl := FixedLiterals(), FixedDistances();
    var t := Match(28, 0, 0, 0);
    assert ts[1..] == [t] && ts[1..][1..] == [];
    assert DistanceBits(t, dl) == [0, 0, 0, 0, 0] + [];
    assert LengthBits(t, dl) == [] + [0, 0, 0, 0, 0];
    assert TokenBits(t, ll, dl) == [1, 1, 0, 0, 0, 1, 0, 1] + [0, 0, 0, 0, 0];
    assert DataBits([], ll, dl) == [0, 0, 0, 0, 0, 0, 0];
    assert DataBits([t], ll, dl) == TokenBits(t, ll, dl) + DataBits([], ll, dl);
  }

  lemma LongestPacked(bits: seq<Bit>)
    requires bits == [1, 1, 0] + ([1, 0, 0, 1, 0, 0, 0, 1] +
                                  ([1, 1, 0, 0, 0, 1, 0, 1] + [0, 0, 0, 0, 0] + [0, 0, 0, 0, 0, 0, 0]))
    ensures Pack(bits) == [0x4B, 0x1C, 0x05, 0x00]
  {
    hide Window;
    EightBits(bits, 0);
    EightBits(bits, 8);
    EightBits(bits, 16);
    EightBits(bits, 24);
  }

  /** Any bytes in one stored block: a final bit and type 00, then at the next byte the length and
      its complement, low byte first, and the bytes. */
  lemma StoredStream(data: seq<Byte>)
    requires |data| <= 65535
    ensures var n := |data|;
            Inflate([0x01, n % 256, n / 256, 255 - n % 256, 255 - n / 256] + data) == Some(data)
  {
    var n := |data|;
    var src: seq<Byte> := [0x01, n % 256, n / 256, 255 - n % 256, 255 - n / 256] + data;
    var bits := ToBits(src);
    BitOfByte(src, 0, 0);
    BitOfByte(src, 0, 1);
    BitOfByte(src, 0, 2);
    assert Shr(1, 0) == 1 && Shr(1, 1) == 0 && Shr(1, 2) == 0;
    assert Window(bits, 0, 1) == 1;
    assert Window(bits, 2, 1) == 0;
    assert Window(bits, 1, 2) == 0;
    hide ToBits, Window;
    assert Le16(src, 1) == n && Le16(src, 3) == 65535 - n;
    assert src[5..5 + n] == data && [] + data == data;
    assert Stored(src, 3, []) == Some((data, 8 * (5 + n)));
  }
}
