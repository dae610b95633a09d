/**
  An encoder that starts from bytes and from matches given by length and distance, whatever codes
  it chooses for them, and what its streams inflate to.
*/
module DeflateItems {
  import opened Numbers
  import opened BitStream
  import opened Huffman
  import opened Deflate
  import opened TreeBuilding
  import opened DeflateCodes
  import opened DeflateEncoding
  import opened DeflateStreams

  datatype Item = Plain(byte: Byte) | Copy(length: nat, distance: nat)

  /** The matches the format has. */
  predicate Proper(i: Item) {
    i.Copy? ==> 3 <= i.length <= 258 && 1 <= i.distance <= 32768
  }

  function ItemMeaning(out: seq<Byte>, items: seq<Item>): Option<seq<Byte>>
    decreases |items|
  {
    if items == [] then Some(out)
    else
      match items[0]
      case Plain(b) => ItemMeaning(out + [b], items[1..])
      case Copy(n, d) => if 0 < d <= |out| then ItemMeaning(CopyBack(out, d, n), items[1..]) else None
  }

  // ---- Spelling ----

  predicate Spells(t: Token, i: Item) {
    match i
    case Plain(b) => t == Literal(b)
    case Copy(n, d) =>
      t.Match? && WritesLength(t.lengthCode, t.lengthBits, n) && WritesDistance(t.distanceCode, t.distanceBits, d)
  }

  ghost predicate Spelled(ts: seq<Token>, items: seq<Item>) {
    |ts| == |items| && forall k :: 0 <= k < |ts| ==> Spells(ts[k], items[k])
  }

  /** A code and extra bits for each length and each distance. */
  function LengthCode(n: nat): (nat, nat)
    requires 3 <= n
  {
    if n <= 10 then (n - 3, 0) else if n <= 18 then (8 + (n - 11) / 2, (n - 11) % 2)
    else if n <= 34 then (12 + (n - 19) / 4, (n - 19) % 4) else if n <= 66 then (16 + (n - 35) / 8, (n - 35) % 8)
    else if n <= 130 then (20 + (n - 67) / 16, (n - 67) % 16) else (24 + (n - 131) / 32, (n - 131) % 32)
  }

  function DistanceCode(d: nat): (nat, nat)
    requires 1 <= d
  {
    if d <= 4 then (d - 1, 0)
    else if d <= 8 then (4 + (d - 5) / 2, (d - 5) % 2)
    else if d <= 16 then (6 + (d - 9) / 4, (d - 9) % 4)
    else if d <= 32 then (8 + (d - 17) / 8, (d - 17) % 8)
    else if d <= 64 then (10 + (d - 33) / 16, (d - 33) % 16)
    else if d <= 128 then (12 + (d - 65) / 32, (d - 65) % 32)
    else if d <= 256 then (14 + (d - 129) / 64, (d - 129) % 64)
    else if d <= 512 then (16 + (d - 257) / 128, (d - 257) % 128)
    else if d <= 1024 then (18 + (d - 513) / 256, (d - 513) % 256)
    else if d <= 2048 then (20 + (d - 1025) / 512, (d - 1025) % 512)
    else if d <= 4096 then (22 + (d - 2049) / 1024, (d - 2049) % 1024)
    else if d <= 8192 then (24 + (d - 4097) / 2048, (d - 4097) % 2048)
    else if d <= 16384 then (26 + (d - 8193) / 4096, (d - 8193) % 4096)
    else (28 + (d - 16385) / 8192, (d - 16385) % 8192)
  }

  lemma LengthWritten(n: nat)
    requires 3 <= n <= 258
    ensures WritesLength(LengthCode(n).0, LengthCode(n).1, n)
  {
    hide WritesLength;
    LengthCodes(LengthCode(n).0, LengthCode(n).1, n);
  }

  lemma DistanceWritten(d: nat)
    requires 1 <= d <= 32768
    ensures WritesDistance(DistanceCode(d).0, DistanceCode(d).1, d)
  {
    hide WritesDistance;
    DistanceCodes(DistanceCode(d).0, DistanceCode(d).1, d);
  }

  lemma WrittenBounds(c: nat, x: nat, n: nat)
    ensures WritesLength(c, x, n) ==> 3 <= n <= 258
    ensures WritesDistance(c, x, n) ==> 1 <= n <= 32768
  {
    hide WritesLength, WritesDistance;
    LengthCodes(c, x, n);
    DistanceCodes(c, x, n);
  }

  /** An item can be spelled if and only if it is one the format has. */
  lemma SpellingIff(i: Item) returns (t: Token)
    ensures Spells(t, i) <==> Proper(i)
    ensures Proper(i) <==> exists u :: Spells(u, i)
  {
    hide WritesLength, WritesDistance, LengthCode, DistanceCode;
    match i
    case Plain(b) => t := Literal(b); assert Spells(t, i);
    case Copy(n, d) =>
      t := Literal(0);
      if Proper(i) {
        LengthWritten(n);
        DistanceWritten(d);
        t := Match(LengthCode(n).0, LengthCode(n).1, DistanceCode(d).0, DistanceCode(d).1);
        assert Spells(t, i);
      } else {
        forall u
          ensures !Spells(u, i)
        {
          if u.Match? {
            WrittenBounds(u.lengthCode, u.lengthBits, n);
            WrittenBounds(u.distanceCode, u.distanceBits, d);
          }
        }
      }
  }

  lemma {:induction false} SpellAll(items: seq<Item>) returns (ts: seq<Token>)
    requires forall i :: i in items ==> Proper(i)
    ensures Spelled(ts, items)
  {
    hide Spells, Proper;
    ts := [];
    if items != [] {
      var t := SpellingIff(items[0]);
      var rest := SpellAll(items[1..]);
      ts := [t] + rest;
    }
  }

  /** However the items are spelled, the tokens mean the same. */
  lemma {:induction false} SpelledMeans(out: seq<Byte>, ts: seq<Token>, items: seq<Item>)
    requires Spelled(ts, items)
    ensures Meaning(out, ts) == ItemMeaning(out, items)
    decreases |ts|
  {
    hide CopyBack, LengthBase, DistanceBase, LengthExtra, DistanceExtra, Pow2;
    if ts != [] {
      assert Spells(ts[0], items[0]);
      match items[0]
      case Plain(b) => SpelledMeans(out + [b], ts[1..], items[1..]);
      case Copy(n, d) =>
        if 0 < d <= |out| {
          SpelledMeans(CopyBack(out, d, n), ts[1..], items[1..]);
        }
    }
  }

  // ---- A fixed block ----

  lemma FixedUsable(s: nat, d: nat)
    requires s < 288 && d < 32
    ensures Usable(FixedLiterals(), s) && Usable(FixedDistances(), d)
  {
    hide Rank, KraftSum, FirstCode, Base;
    FixedLevels();
    FixedDistanceLevels();
  }

  lemma SpelledWritable(ts: seq<Token>, items: seq<Item>)
    requires Spelled(ts, items)
    ensures Writable(ts, FixedLiterals(), FixedDistances())
  {
    hide Usable, FixedLiterals, FixedDistances, LengthExtra, LengthBase, DistanceExtra, DistanceBase;
    FixedUsable(256, 0);
    forall t | t in ts
      ensures TokenUsable(t, FixedLiterals(), FixedDistances())
    {
      var k :| 0 <= k < |ts| && ts[k] == t;
      assert Spells(ts[k], items[k]);
      match t
      case Literal(b) => FixedUsable(b, 0);
      case Match(c, _, d, _) => FixedUsable(257 + c, d);
    }
  }

  /** Bytes and matches of any length from 3 to 258 and any distance from 1 to 32768, spelled in any
      way in a fixed block, inflate to what they mean. */
  lemma ItemsInvert(items: seq<Item>, ts: seq<Token>)
    requires Spelled(ts, items) && ItemMeaning([], items).Some?
    ensures ChunkWritable(Fixed(ts))
    ensures Inflate(Pack(StreamBits(0, [Fixed(ts)]))) == ItemMeaning([], items)
  {
    hide Inflate, Pack, StreamBits, Writable, Meaning, ItemMeaning, Spelled;
    SpelledWritable(ts, items);
    SpelledMeans([], ts, items);
    var c := Fixed(ts);
    assert [c][1..] == [];
    assert ChunkMeaning([], c) == Meaning([], ts);
    assert StreamMeaning([], [c]) == Meaning([], ts);
    InflateInverts([c]);
  }
}
