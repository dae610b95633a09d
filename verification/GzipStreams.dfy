/** Encoded streams wrapped as gzip members. */
module GzipStreams {
  import opened Numbers
  import opened Deflate
  import opened Crc32
  import opened Gzip
  import opened DeflateStreams
  import opened DeflateSamples

  /** The four bytes of a number, least significant first. */
  function Word(n: nat): (r: seq<Byte>)
    requires n < 0x1_0000_0000
    ensures |r| == 4
  {
    [n % 256, n / 256 % 256, n / 65536 % 256, n / 0x100_0000]
  }

  lemma WordReads(n: nat)
    requires n < 0x1_0000_0000
    ensures Le32(Word(n), 0) == n
  {
    var d, c, b := n / 0x100_0000, n / 65536, n / 256;
    assert b == 256 * c + b % 256 && c == 256 * d + c % 256;
    assert Le16(Word(n), 0) == n % 256 + 256 * (b % 256) && Le16(Word(n), 2) == c % 256 + 256 * d;
  }

  lemma Le32At(src: seq<Byte>, k: nat, n: nat)
    requires n < 0x1_0000_0000 && k + 4 <= |src| && src[k..k + 4] == Word(n)
    ensures Le32(src, k) == n
  {
    hide Word;
    WordReads(n);
    var w := src[k..k + 4];
    assert w[0] == src[k] && w[1] == src[k + 1] && w[2] == src[k + 2] && w[3] == src[k + 3];
  }

  // ---- Headers ----

  /** What a member may carry besides its data: the text flag, six bytes of time and origin, an
      extra field, a name and a comment, and whether the header has a CRC of its own. */
  datatype Header = Header(
    text: bool, info: seq<Byte>,
    extra: Option<seq<Byte>>, name: Option<seq<Byte>>, comment: Option<seq<Byte>>, crc: bool)

  ghost predicate Writable(h: Header) {
    && |h.info| == 6 && (h.extra.Some? ==> |h.extra.value| <= 65535)
    && (h.name.Some? ==> 0 !in h.name.value) && (h.comment.Some? ==> 0 !in h.comment.value)
  }

  function Bit(b: bool): nat {
    if b then 1 else 0
  }

  /** FTEXT, FHCRC, FEXTRA, FNAME and FCOMMENT, from the lowest bit on. */
  function Flags(h: Header): Byte {
    Bit(h.text) + 2 * Bit(h.crc) + 4 * Bit(h.extra.Some?) + 8 * Bit(h.name.Some?) + 16 * Bit(h.comment.Some?)
  }

  function ExtraField(h: Header): seq<Byte>
    requires h.extra.Some? ==> |h.extra.value| <= 65535
  {
    if h.extra.None? then [] else [|h.extra.value| % 256, |h.extra.value| / 256] + h.extra.value
  }

  function ZeroEnded(s: Option<seq<Byte>>): seq<Byte> {
    if s.None? then [] else s.value + [0]
  }

  /** The header up to its CRC: the fixed part, then the fields in the order of section 2.3.1. */
  function Front(h: Header): (r: seq<Byte>)
    requires |h.info| == 6 && (h.extra.Some? ==> |h.extra.value| <= 65535)
    ensures |r| >= 10
  {
    ([0x1F, 0x8B, 8, Flags(h)] + h.info) + (ExtraField(h) + (ZeroEnded(h.name) + ZeroEnded(h.comment)))
  }

  /** The low half of the CRC of what precedes it. */
  function HeaderCrc(front: seq<Byte>): (r: nat)
    ensures r < 65536
  {
    LowNumber(Crc(front))
  }

  function CrcField(h: Header): seq<Byte>
    requires |h.info| == 6 && (h.extra.Some? ==> |h.extra.value| <= 65535)
  {
    if h.crc then [HeaderCrc(Front(h)) % 256, HeaderCrc(Front(h)) / 256] else []
  }

  function HeaderBytes(h: Header): seq<Byte>
    requires |h.info| == 6 && (h.extra.Some? ==> |h.extra.value| <= 65535)
  {
    Front(h) + CrcField(h)
  }

  lemma FlagsRead(t: nat, c: nat, e: nat, n: nat, m: nat, x: nat)
    requires t < 2 && c < 2 && e < 2 && n < 2 && m < 2 && x == t + 2 * c + 4 * e + 8 * n + 16 * m
    ensures Shr(x, 1) % 2 == c && Shr(x, 2) % 2 == e && Shr(x, 3) % 2 == n && Shr(x, 4) % 2 == m && Shr(x, 5) == 0
  {
    ShrStep(x, 1);
    ShrStep(x, 2);
    ShrStep(x, 3);
    ShrStep(x, 4);
    assert Shr(x, 1) == x / 2;
    hide Shr;
    var d := m;
    var c3 := n + 2 * d;
    var c2 := e + 2 * c3;
    var c1 := c + 2 * c2;
    assert x == t + 2 * c1;
    assert x / 2 == c1 && c1 / 2 == c2 && c2 / 2 == c3 && c3 / 2 == d && d / 2 == 0;
  }

  // ---- Where the fields end ----

  lemma After(src: seq<Byte>, k: nat, x: seq<Byte>, tail: seq<Byte>)
    requires k <= |src| && src[k..] == x + tail
    ensures k + |x| <= |src| && src[k..k + |x|] == x && src[k + |x|..] == tail
  {
    assert src[k + |x|..] == src[k..][|x|..];
    assert src[k..k + |x|] == src[k..][..|x|];
  }

  lemma {:induction false} StringEnds(src: seq<Byte>, k: nat, s: seq<Byte>)
    requires k + |s| < |src| && src[k..k + |s|] == s && 0 !in s && src[k + |s|] == 0
    ensures AfterString(src, k) == Some(k + |s| + 1)
    decreases |s|
  {
    if s != [] {
      assert src[k] == s[0] && s[0] in s;
      assert src[k + 1..k + 1 + |s[1..]|] == s[1..];
      StringEnds(src, k + 1, s[1..]);
    }
  }

  lemma NameRead(src: seq<Byte>, k: nat, s: Option<seq<Byte>>, tail: seq<Byte>)
    requires 10 <= k <= |src| && src[k..] == ZeroEnded(s) + tail && (s.Some? ==> 0 !in s.value)
    ensures AfterName(src, s.Some?, Some(k)) == Some(k + |ZeroEnded(s)|)
    ensures k + |ZeroEnded(s)| <= |src| && src[k + |ZeroEnded(s)|..] == tail
  {
    After(src, k, ZeroEnded(s), tail);
    if s.Some? {
      var x, n := src[k..k + |s.value| + 1], |s.value|;
      assert src[k..k + n] == x[..n] == s.value && src[k + n] == x[n] == 0;
      StringEnds(src, k, s.value);
    }
  }

  lemma ExtraRead(src: seq<Byte>, h: Header, tail: seq<Byte>)
    requires |src| >= 12 && (h.extra.Some? ==> |h.extra.value| <= 65535) && src[10..] == ExtraField(h) + tail
    requires FlagBit(Flags(h), 2) <==> h.extra.Some?
    ensures AfterExtra(src, Flags(h)) == Some(10 + |ExtraField(h)|)
    ensures 10 + |ExtraField(h)| <= |src| && src[10 + |ExtraField(h)|..] == tail
  {
    hide FlagBit, Flags;
    After(src, 10, ExtraField(h), tail);
    if h.extra.Some? {
      var x := src[10..10 + |ExtraField(h)|];
      assert src[10] == x[0] && src[11] == x[1];
    }
  }

  lemma CrcRead(src: seq<Byte>, front: seq<Byte>, a: Byte, b: Byte, tail: seq<Byte>)
    requires |front| >= 10 && src == front + ([a, b] + tail)
    ensures AfterHeaderCrc(src, true, Some(|front|)) ==
            if a + 256 * b == HeaderCrc(front) then Some(|front| + 2) else None
  {
    hide Crc, LowNumber;
    var k := |front|;
    assert src[..k] == front && src[k] == a && src[k + 1] == b;
  }

  lemma FlagsMean(h: Header)
    ensures (FlagBit(Flags(h), 1) <==> h.crc) && (FlagBit(Flags(h), 2) <==> h.extra.Some?)
    ensures (FlagBit(Flags(h), 3) <==> h.name.Some?) && (FlagBit(Flags(h), 4) <==> h.comment.Some?)
    ensures Shr(Flags(h), 5) == 0
  {
    FlagsRead(Bit(h.text), Bit(h.crc), Bit(h.extra.Some?), Bit(h.name.Some?), Bit(h.comment.Some?), Flags(h));
  }

  lemma FrontParts(src: seq<Byte>, first: seq<Byte>, x: seq<Byte>, n: seq<Byte>, m: seq<Byte>, rest: seq<Byte>)
    requires |first| == 10 && src == (first + (x + (n + m))) + rest
    ensures src[10..] == x + (n + (m + rest)) && forall i :: 0 <= i < 10 ==> src[i] == first[i]
  {
  }

  lemma FrontStart(h: Header, rest: seq<Byte>)
    requires Writable(h)
    ensures var src := Front(h) + rest;
            && src[0] == 0x1F && src[1] == 0x8B && src[2] == 8 && src[3] == Flags(h)
            && src[10..] == ExtraField(h) + (ZeroEnded(h.name) + (ZeroEnded(h.comment) + rest))
            && |Front(h)| == 10 + |ExtraField(h)| + |ZeroEnded(h.name)| + |ZeroEnded(h.comment)|
  {
    hide Flags, ExtraField, ZeroEnded;
    var first := [0x1F, 0x8B, 8, Flags(h)] + h.info;
    FrontParts(Front(h) + rest, first, ExtraField(h), ZeroEnded(h.name), ZeroEnded(h.comment), rest);
  }

  /** Everything up to the header CRC is skipped, whatever follows. */
  lemma FrontRead(h: Header, rest: seq<Byte>)
    requires Writable(h) && |Front(h) + rest| >= 18
    ensures BodyStart(Front(h) + rest) == AfterHeaderCrc(Front(h) + rest, h.crc, Some(|Front(h)|))
  {
    hide Front, Flags, FlagBit, Shr, ExtraField, ZeroEnded, AfterExtra, AfterName, AfterHeaderCrc;
    var src := Front(h) + rest;
    FrontStart(h, rest);
    FlagsMean(h);
    var x, n, m := ExtraField(h), ZeroEnded(h.name), ZeroEnded(h.comment);
    ExtraRead(src, h, n + (m + rest));
    NameRead(src, 10 + |x|, h.name, m + rest);
    NameRead(src, 10 + |x| + |n|, h.comment, rest);
  }

  /** The compressed data of every member starts where its header ends. */
  lemma HeaderEnds(h: Header, tail: seq<Byte>)
    requires Writable(h) && |HeaderBytes(h) + tail| >= 18
    ensures BodyStart(HeaderBytes(h) + tail) == Some(|HeaderBytes(h)|)
  {
    hide BodyStart, Front, HeaderCrc;
    var front := Front(h);
    assert HeaderBytes(h) + tail == front + (CrcField(h) + tail);
    FrontRead(h, CrcField(h) + tail);
    if h.crc {
      var n := HeaderCrc(front);
      CrcRead(front + (CrcField(h) + tail), front, n % 256, n / 256, tail);
    }
  }

  /** A member whose header CRC is another number than it should be is refused. */
  lemma WrongCrcRefused(h: Header, a: Byte, b: Byte, tail: seq<Byte>)
    requires Writable(h) && h.crc && |tail| >= 6 && a + 256 * b != HeaderCrc(Front(h))
    ensures Decompressed(Front(h) + ([a, b] + tail)).None?
  {
    hide HeaderCrc, AfterHeaderCrc;
    FrontRead(h, [a, b] + tail);
    CrcRead(Front(h) + ([a, b] + tail), Front(h), a, b, tail);
    hide BodyStart, Inflate;
    assert (Front(h) + ([a, b] + tail))[0] == 0x1F;
    assert (Front(h) + ([a, b] + tail))[1] == 0x8B;
  }

  // ---- Members ----

  /** Header, stream, and the CRC and length of what it stands for. */
  function Member(h: Header, body: seq<Byte>, out: seq<Byte>): seq<Byte>
    requires |h.info| == 6 && (h.extra.Some? ==> |h.extra.value| <= 65535) && |out| < 0x1_0000_0000
  {
    HeaderBytes(h) + (body + (Word(Number(Crc(out))) + Word(|out|)))
  }

  lemma MemberParts(front: seq<Byte>, body: seq<Byte>, c: seq<Byte>, l: seq<Byte>, m: seq<Byte>)
    requires m == front + (body + (c + l)) && |c| == 4 && |l| == 4
    ensures m[|front|..|m| - 8] == body && m[|m| - 8..|m| - 4] == c && m[|m| - 4..|m|] == l
  {
    var tail := c + l;
    assert m[|front|..] == body + tail;
    assert m[|front|..][..|body|] == body && m[|front|..][|body|..] == tail;
    assert m[|front|..|m| - 8] == m[|front|..][..|body|];
    assert m[|m| - 8..] == m[|front|..][|body|..] == tail;
    assert m[|m| - 8..|m| - 4] == tail[..4] && m[|m| - 4..|m|] == tail[4..];
  }

  /** Encoding any blocks and wrapping them as a gzip member with any header fields, then
      decompressing, gives back what was encoded; so does decompressing the bare stream unless it
      looks like a member. */
  lemma DecompressInverts(cs: seq<Chunk>, h: Header)
    requires cs != [] && (forall c :: c in cs ==> ChunkWritable(c)) && StreamMeaning([], cs).Some?
    requires Writable(h) && |StreamMeaning([], cs).value| < 0x1_0000_0000
    ensures Decompressed(Member(h, Pack(StreamBits(0, cs)), StreamMeaning([], cs).value)) == StreamMeaning([], cs)
    ensures !Magic(Pack(StreamBits(0, cs))) ==> Decompressed(Pack(StreamBits(0, cs))) == StreamMeaning([], cs)
  {
    hide Inflate, Pack, StreamBits, StreamMeaning, ChunkWritable, HeaderBytes, BodyStart, Word, Number, Crc;
    InflateInverts(cs);
    MemberReads(h, Pack(StreamBits(0, cs)), StreamMeaning([], cs).value);
  }

  /** A member stands for what its stream inflates to, if and only if CRC and length in its trailer
      are right. */
  lemma MemberIff(h: Header, body: seq<Byte>, c: nat, l: nat)
    requires Writable(h) && c < 0x1_0000_0000 && l < 0x1_0000_0000
    ensures Decompressed(HeaderBytes(h) + (body + (Word(c) + Word(l)))) ==
            if Inflate(body).Some? && c == Number(Crc(Inflate(body).value)) && l == |Inflate(body).value|
            then Inflate(body) else None
  {
    hide Inflate, HeaderBytes, BodyStart, Word, Number, Crc;
    var front := HeaderBytes(h);
    var m := front + (body + (Word(c) + Word(l)));
    HeaderStarts(h);
    assert m[0] == front[0] && m[1] == front[1];
    MemberParts(front, body, Word(c), Word(l), m);
    HeaderEnds(h, body + (Word(c) + Word(l)));
    Le32At(m, |m| - 8, c);
    Le32At(m, |m| - 4, l);
  }

  lemma MemberReads(h: Header, body: seq<Byte>, out: seq<Byte>)
    requires Writable(h) && |out| < 0x1_0000_0000 && Inflate(body) == Some(out)
    ensures Decompressed(Member(h, body, out)) == Some(out)
  {
    hide Inflate, HeaderBytes, Decompressed, Word, Number, Crc;
    MemberIff(h, body, Number(Crc(out)), |out|);
  }

  /** What starts like a member is refused if it is shorter than 18 bytes, not of method 8, or has one
      of the three upper flags. */
  lemma HeaderRefused(src: seq<Byte>)
    requires |src| >= 2 && src[0] == 0x1F && src[1] == 0x8B
    ensures |src| < 18 || src[2] != 8 || src[3] >= 32 ==> Decompressed(src) == None
  {
    if |src| >= 18 && src[3] >= 32 {
      ShrFive(src[3]);
    }
  }

  lemma ShrFive(x: nat)
    ensures Shr(x, 5) == x / 32
  {
    ShrStep(x, 1);
    ShrStep(x, 2);
    ShrStep(x, 3);
    ShrStep(x, 4);
    assert Shr(x, 1) == x / 2;
    hide Shr;
  }

  lemma HeaderStarts(h: Header)
    requires Writable(h)
    ensures |HeaderBytes(h)| >= 10 && HeaderBytes(h)[0] == 0x1F && HeaderBytes(h)[1] == 0x8B
  {
    hide HeaderCrc;
  }

  // ---- Byte by byte ----

  /** The layouts of headers with one optional field: flag 4 and the extra field, flag 8 and the
      name, flag 16 and the comment, flag 2 and the CRC. */
  lemma FieldLayouts(info: seq<Byte>, s: seq<Byte>)
    requires |info| == 6 && |s| <= 65535
    ensures HeaderBytes(Header(false, info, None, None, None, false)) == [0x1F, 0x8B, 8, 0] + info
    ensures HeaderBytes(Header(false, info, Some(s), None, None, false)) ==
            [0x1F, 0x8B, 8, 4] + info + [|s| % 256, |s| / 256] + s
    ensures HeaderBytes(Header(false, info, None, Some(s), None, false)) == [0x1F, 0x8B, 8, 8] + info + s + [0]
    ensures HeaderBytes(Header(false, info, None, None, Some(s), false)) == [0x1F, 0x8B, 8, 16] + info + s + [0]
    ensures var front := [0x1F, 0x8B, 8, 2] + info; var c := LowNumber(Crc(front));
            HeaderBytes(Header(false, info, None, None, None, true)) == front + [c % 256, c / 256]
  {
    hide HeaderBytes, Crc, LowNumber;
    StringLayouts(info, s);
    ExtraLayout(info, s);
    CrcLayout(info);
  }

  lemma StringLayouts(info: seq<Byte>, s: seq<Byte>)
    requires |info| == 6
    ensures HeaderBytes(Header(false, info, None, None, None, false)) == [0x1F, 0x8B, 8, 0] + info
    ensures HeaderBytes(Header(false, info, None, Some(s), None, false)) == [0x1F, 0x8B, 8, 8] + info + s + [0]
    ensures HeaderBytes(Header(false, info, None, None, Some(s), false)) == [0x1F, 0x8B, 8, 16] + info + s + [0]
  {
    var f := [0x1F, 0x8B, 8, 8] + info;
    var g := [0x1F, 0x8B, 8, 16] + info;
    assert Front(Header(false, info, None, Some(s), None, false)) == f + ([] + ((s + [0]) + []));
    assert Front(Header(false, info, None, None, Some(s), false)) == g + ([] + ([] + (s + [0])));
  }

  lemma ExtraLayout(info: seq<Byte>, s: seq<Byte>)
    requires |info| == 6 && |s| <= 65535
    ensures HeaderBytes(Header(false, info, Some(s), None, None, false)) ==
            [0x1F, 0x8B, 8, 4] + info + [|s| % 256, |s| / 256] + s
  {
    var f, l := [0x1F, 0x8B, 8, 4] + info, [|s| % 256, |s| / 256];
    assert Front(Header(false, info, Some(s), None, None, false)) == f + ((l + s) + ([] + []));
    assert f + ((l + s) + ([] + [])) == f + l + s;
  }

  lemma CrcLayout(info: seq<Byte>)
    requires |info| == 6
    ensures var front := [0x1F, 0x8B, 8, 2] + info; var c := LowNumber(Crc(front));
            HeaderBytes(Header(false, info, None, None, None, true)) == front + [c % 256, c / 256]
  {
    hide Crc, LowNumber;
    assert Front(Header(false, info, None, None, None, true)) == [0x1F, 0x8B, 8, 2] + info;
  }

  /** The member of a single `a`, with the name `a` and without. */
  lemma OneLetterMember()
    ensures Decompressed([0x1F, 0x8B, 8, 0, 0, 0, 0, 0, 0, 3] + [0x4B, 0x04, 0x00] +
                         [0x43, 0xBE, 0xB7, 0xE8] + [1, 0, 0, 0]) == Some([0x61])
    ensures Decompressed([0x1F, 0x8B, 8, 8, 0, 0, 0, 0, 0, 3] + [0x61, 0] + [0x4B, 0x04, 0x00] +
                         [0x43, 0xBE, 0xB7, 0xE8] + [1, 0, 0, 0]) == Some([0x61])
  {
    hide Inflate, Crc, Decompressed, HeaderBytes;
    OneLetter();
    OneLetterCrc();
    LetterWord();
    var info, body, out: seq<Byte> := [0, 0, 0, 0, 0, 3], [0x4B, 0x04, 0x00], [0x61];
    FieldLayouts(info, [0x61]);
    var h, g := Header(false, info, None, None, None, false), Header(false, info, None, Some([0x61]), None, false);
    MemberReads(h, body, out);
    MemberReads(g, body, out);
    assert Word(1) == [1, 0, 0, 0];
    assert Member(h, body, out) ==
           [0x1F, 0x8B, 8, 0, 0, 0, 0, 0, 0, 3] + body + [0x43, 0xBE, 0xB7, 0xE8] + [1, 0, 0, 0];
    assert Member(g, body, out) ==
           [0x1F, 0x8B, 8, 8, 0, 0, 0, 0, 0, 3] + [0x61, 0] + body + [0x43, 0xBE, 0xB7, 0xE8] + [1, 0, 0, 0];
  }

  lemma LetterWord()
    ensures Word(Number(0xE8B7_BE43)) == [0x43, 0xBE, 0xB7, 0xE8]
    ensures LowNumber(0xE8B7_BE43) == 0xBE43
  {
  }
}
