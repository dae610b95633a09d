/**
  The archive iterator in the 32-bit arithmetic of cpio.c: what it does with sizes whose sums wrap,
  when it reads the format exactly, and the loops over it, which need not end.
*/
module Cpio32 {
  import opened Numbers
  import opened Cpio
  import opened Lookup

  const WORD: nat := 0x1_0000_0000

  function Add32(x: nat, y: nat): (r: nat)
    ensures r <= x + y && r < WORD
  {
    (x + y) % WORD
  }

  function Align32(n: nat): (r: nat)
    ensures r <= Align4(n) && r < WORD
  {
    Add32(n, 3) / 4 * 4
  }

  /** The bytes of a file, as far as they lie in the archive. */
  function Clip(a: seq<Byte>, start: nat, n: nat): seq<Byte> {
    a[Min(start, |a|)..Min(start + n, |a|)]
  }

  /** What cpio_iter_next makes of what stands at pos. */
  function Read(a: seq<Byte>, pos: nat): (r: Outcome)
    ensures r.Got? ==> |r.entry.fields| == 13
  {
    if pos >= |a| || |a| - pos < 110 || a[pos..pos + 6] != MAGIC then Bad
    else
      var fields := ParseFields(a, pos + 6, 13);
      if fields.None? then Bad
      else
        var nameSize, fileSize := fields.value[11], fields.value[6];
        if Add32(pos + 110, nameSize) > |a| then Bad
        else
          var name := CString(a, pos + 110);
          if name == TRAILER then End
          else
            var start := Align32(Add32(pos + 110, nameSize));
            if Add32(start, fileSize) > |a| then Bad
            else Got(Entry(fields.value, name, Clip(a, start, fileSize)), Align32(Add32(start, fileSize)))
  }

  /** A whole header stands at pos, with the magic and thirteen numbers. */
  predicate Readable(a: seq<Byte>, pos: nat) {
    pos + 110 <= |a| && a[pos..pos + 6] == MAGIC && ParseFields(a, pos + 6, 13).Some?
  }

  /** Where the name and the contents end according to the header at pos. */
  function NameEnd(a: seq<Byte>, pos: nat): nat
    requires Readable(a, pos)
  {
    pos + 110 + ParseFields(a, pos + 6, 13).value[11]
  }

  function DataEnd(a: seq<Byte>, pos: nat): nat
    requires Readable(a, pos)
  {
    Align4(NameEnd(a, pos)) + ParseFields(a, pos + 6, 13).value[6]
  }

  /** One of the two bound tests fails on the sums as the code computes them. */
  predicate Refused(a: seq<Byte>, pos: nat)
    requires Readable(a, pos)
  {
    var fields := ParseFields(a, pos + 6, 13).value;
    var nameEnd := Add32(pos + 110, fields[11]);
    nameEnd > |a| || (CString(a, pos + 110) != TRAILER && Add32(Align32(nameEnd), fields[6]) > |a|)
  }

  /** None of the sums the header calls for reaches 2^32. */
  predicate Unwrapped(a: seq<Byte>, pos: nat)
    requires Readable(a, pos)
  {
    NameEnd(a, pos) < WORD && (CString(a, pos + 110) == TRAILER || Align4(DataEnd(a, pos)) < WORD)
  }

  /** The iterator reads what the format says if and only if there is no header, a bound test fails
      or no sum wraps. */
  lemma ExactIff(a: seq<Byte>, pos: nat)
    requires |a| < WORD
    ensures Read(a, pos) == Next(a, pos) <==> Readable(a, pos) ==> Refused(a, pos) || Unwrapped(a, pos)
  {
    hide ParseFields, CString, Add32, Align32, Align4;
    if Readable(a, pos) {
      var fields := ParseFields(a, pos + 6, 13).value;
      SumsBelow(pos + 110, fields[11], fields[6]);
      if Align4(DataEnd(a, pos)) < WORD {
        SumsExact(pos + 110, fields[11], fields[6]);
      }
    }
  }

  /** The sums the code computes are never larger than the true ones. */
  lemma SumsBelow(p: nat, name: nat, size: nat)
    ensures Add32(Align32(Add32(p, name)), size) <= Align4(p + name) + size
    ensures p + name < WORD ==> Add32(p, name) == p + name
  {
  }

  /** They are exact while the last one is below 2^32. */
  lemma SumsExact(p: nat, name: nat, size: nat)
    requires Align4(Align4(p + name) + size) < WORD
    ensures Add32(p, name) == p + name && Align32(p + name) == Align4(p + name)
    ensures Add32(Align4(p + name), size) == Align4(p + name) + size
    ensures Align32(Align4(p + name) + size) == Align4(Align4(p + name) + size)
  {
    hide Align32, Align4;
    AlignExact(p + name);
    AlignExact(Align4(p + name) + size);
  }

  lemma AlignExact(n: nat)
    requires Align4(n) < WORD
    ensures Align32(n) == Align4(n)
  {
  }

  // ---- Whole archives ----

  /** The iterator is exact at pos and at every place it goes on to. */
  ghost predicate Steady(a: seq<Byte>, pos: nat)
    decreases |a| - pos
  {
    Read(a, pos) == Next(a, pos) && (Next(a, pos).Got? ==> Steady(a, Next(a, pos).next))
  }

  /** It is exact on every well-formed archive of at most 2^32 - 4 bytes. */
  lemma {:induction false} WellFormedSteady(a: seq<Byte>, pos: nat)
    requires |a| + 4 <= WORD && Entries(a, pos).Some?
    ensures Steady(a, pos)
    decreases |a| - pos
  {
    hide Read, Next;
    GoodIsExact(a, pos);
    if Next(a, pos).Got? {
      WellFormedSteady(a, Next(a, pos).next);
    }
  }

  lemma GoodIsExact(a: seq<Byte>, pos: nat)
    requires |a| + 4 <= WORD && !Next(a, pos).Bad?
    ensures Read(a, pos) == Next(a, pos)
  {
    hide ParseFields, CString, Read;
    ExactIff(a, pos);
  }

  /** The search of cpio_extract_file, given up after so many entries. */
  function Search(a: seq<Byte>, pos: nat, name: seq<Byte>, room: nat, steps: nat): Extracted
    decreases steps
  {
    if steps == 0 then Unfinished
    else match Read(a, pos)
      case Bad => Corrupt
      case End => NotFound
      case Got(e, next) =>
        if e.name == name then if e.fields[6] > room then Overflow else File(e.data)
        else Search(a, next, name, room, steps - 1)
  }

  datatype Loaded = Table(files: seq<Entry>) | Spoilt | Endless

  /** The indexing of ramdisk_init_from_archive, given up after so many entries. */
  function Load(a: seq<Byte>, pos: nat, files: seq<Entry>, steps: nat): Loaded
    decreases steps
  {
    if steps == 0 then Endless
    else match Read(a, pos)
      case Bad => Spoilt
      case End => Table(files)
      case Got(e, next) =>
        if |files| >= 128 then Table(files)
        else Load(a, next, if e.fields[6] == 0 then files else files + [e], steps - 1)
  }

  /** The bound only matters while the loop is still running: a search that ends gives the same with
      every larger bound. */
  lemma {:induction false} SearchSettles(a: seq<Byte>, pos: nat, name: seq<Byte>, room: nat, n: nat, m: nat)
    requires n <= m && !Search(a, pos, name, room, n).Unfinished?
    ensures Search(a, pos, name, room, m) == Search(a, pos, name, room, n)
    decreases n
  {
    hide Read;
    if Read(a, pos).Got? && Read(a, pos).entry.name != name {
      SearchSettles(a, Read(a, pos).next, name, room, n - 1, m - 1);
    }
  }

  lemma {:induction false} LoadSettles(a: seq<Byte>, pos: nat, files: seq<Entry>, n: nat, m: nat)
    requires n <= m && !Load(a, pos, files, n).Endless?
    ensures Load(a, pos, files, m) == Load(a, pos, files, n)
    decreases n
  {
    hide Read;
    if Read(a, pos).Got? && |files| < 128 {
      var e := Read(a, pos).entry;
      LoadSettles(a, Read(a, pos).next, if e.fields[6] == 0 then files else files + [e], n - 1, m - 1);
    }
  }

  /** On an archive it reads exactly, one step for every 110 bytes is enough, and the search is the
      scan of the format. */
  lemma {:induction false} SearchIsScan(a: seq<Byte>, pos: nat, name: seq<Byte>, room: nat, steps: nat)
    requires Steady(a, pos) && 0 < steps && |a| - pos < 110 * steps
    ensures Search(a, pos, name, room, steps) == Scan(a, pos, name, room)
    decreases steps
  {
    hide Read;
    NextMoves(a, pos);
    hide Next;
    if Next(a, pos).Got? && Next(a, pos).entry.name != name {
      SearchIsScan(a, Next(a, pos).next, name, room, steps - 1);
    }
  }

  lemma {:induction false} LoadIsCollect(a: seq<Byte>, pos: nat, files: seq<Entry>, steps: nat)
    requires Steady(a, pos) && 0 < steps && |a| - pos < 110 * steps
    ensures var c := Collect(a, pos, files); Load(a, pos, files, steps) == if c.None? then Spoilt else Table(c.value)
    decreases steps
  {
    hide Read;
    NextMoves(a, pos);
    hide Next;
    if Next(a, pos).Got? && |files| < 128 {
      var e := Next(a, pos).entry;
      LoadIsCollect(a, Next(a, pos).next, if e.data == [] then files else files + [e], steps - 1);
    }
  }

  lemma NextMoves(a: seq<Byte>, pos: nat)
    ensures var r := Next(a, pos); r.Got? ==> pos + 110 <= |a| && pos + 110 <= r.next
    ensures var r := Next(a, pos); r.Got? ==> |r.entry.fields| == 13 && |r.entry.data| == r.entry.fields[6]
  {
  }

  /** Searching a printed archive finds the first file of that name. */
  lemma SearchPrinted(files: seq<Entry>, upper: bool, name: seq<Byte>, room: nat, steps: nat)
    requires forall e :: e in files ==> Printable(e) && e.name != TRAILER
    requires |PrintArchive(files, upper)| + 4 <= WORD && |PrintArchive(files, upper)| < 110 * steps
    ensures var x := FirstNamed(files, name);
            Search(PrintArchive(files, upper), 0, name, room, steps) ==
              if x.None? then NotFound else if |x.value.data| > room then Overflow else File(x.value.data)
  {
    hide PrintArchive, Printable, Scan, Search, Entries, Steady, StartsWell, FirstNamed;
    var a := PrintArchive(files, upper);
    RoundTrip([], files, [], upper);
    assert [] + a + [] == a;
    WellFormedSteady(a, 0);
    SearchIsScan(a, 0, name, room, steps);
    PrintedStartsWell(files, [], upper);
    assert a + [] == a;
    ExtractPrinted(files, upper, name, room);
  }

  // ---- Table and search ----

  /** On a well-formed archive of at most 2^32 - 4 bytes, with room for the file: indexing succeeds,
      and the table and the search agree on a name if and only if the archive has no such entry or
      its first one is not empty and is one of the first 128 that are not. */
  lemma LoopsAgreeIff(a: seq<Byte>, name: seq<Byte>, room: nat, steps: nat)
    requires |a| + 4 <= WORD && StartsWell(a) && Entries(a, 0).Some? && |a| < 110 * steps
    requires var x := FirstNamed(Entries(a, 0).value, name); x.Some? ==> |x.value.data| <= room
    ensures Load(a, 0, [], steps).Table?
    ensures var es := Entries(a, 0).value;
            var x := FirstNamed(es, name);
            Agree(FirstNamed(Load(a, 0, [], steps).files, name), Search(a, 0, name, room, steps)) <==>
              x.None? || (x.value.data != [] && Rank(es, name) < 128)
  {
    hide FirstNamed, Rank, Entries, Search, Load, Scan, Collect, Steady;
    WellFormedSteady(a, 0);
    SearchIsScan(a, 0, name, room, steps);
    LoadIsCollect(a, 0, [], steps);
    AgreeIff(a, name, room);
  }

  /** With at most 128 files that are not empty, and no empty one of that name, they agree. */
  lemma LoopsAgree(a: seq<Byte>, name: seq<Byte>, room: nat, steps: nat)
    requires |a| + 4 <= WORD && StartsWell(a) && Entries(a, 0).Some? && |a| < 110 * steps
    requires |NonEmpty(Entries(a, 0).value)| <= 128
    requires forall e :: e in Entries(a, 0).value && e.name == name ==> 0 < |e.data| <= room
    ensures Load(a, 0, [], steps).Table?
    ensures Agree(FirstNamed(Load(a, 0, [], steps).files, name), Search(a, 0, name, room, steps))
  {
    hide FirstNamed, NonEmpty, Rank, Entries, Search, Load, Agree;
    RankBelow(Entries(a, 0).value, name);
    LoopsAgreeIff(a, name, room, steps);
  }

  /** An archive with one file, an empty one: the search finds it and the table does not have it. */
  lemma EmptyFileMissing(e: Entry, upper: bool, room: nat, steps: nat)
    requires Printable(e) && e.name != TRAILER && e.data == []
    requires |PrintArchive([e], upper)| + 4 <= WORD && |PrintArchive([e], upper)| < 110 * steps
    ensures Load(PrintArchive([e], upper), 0, [], steps) == Table([])
    ensures Search(PrintArchive([e], upper), 0, e.name, room, steps) == File([])
  {
    hide PrintArchive, Printable, Search, Load, Steady, Entries;
    var a := PrintArchive([e], upper);
    RoundTrip([], [e], [], upper);
    assert [] + a + [] == a;
    SearchPrinted([e], upper, e.name, room, steps);
    WellFormedSteady(a, 0);
    LoadIsCollect(a, 0, [], steps);
    CollectIs(a, 0, []);
    assert [e][1..] == [];
    assert NonEmpty([e]) == [];
  }

  const EMPTY_FILE := Entry([0, 0, 0, 0, 1, 0, 0, 0, 0, 0, 0, 2, 0], [0x61], [])

  /** The smallest such archive: 236 bytes, so three steps are enough. */
  lemma EmptyFileLost(upper: bool, room: nat, steps: nat)
    requires 3 <= steps
    ensures Load(PrintArchive([EMPTY_FILE], upper), 0, [], steps) == Table([])
    ensures Search(PrintArchive([EMPTY_FILE], upper), 0, EMPTY_FILE.name, room, steps) == File([])
  {
    hide PrintEntry, Search, Load;
    PrintSize(EMPTY_FILE, upper);
    PrintSize(TRAILER_ENTRY, upper);
    assert [EMPTY_FILE][1..] == [];
    assert |PrintArchive([EMPTY_FILE], upper)| == |PrintEntry(EMPTY_FILE, upper)| + |PrintArchive([], upper)|;
    EmptyFileMissing(EMPTY_FILE, upper, room, steps);
  }

  // ---- A name size that wraps ----

  /** A header for an empty file whose name ends at 2^32. */
  ghost predicate Wrapping(fields: seq<nat>) {
    && |fields| == 13 && (forall i :: 0 <= i < 13 ==> fields[i] < WORD)
    && fields[6] == 0 && fields[11] == WORD - 110
  }

  function Lone(fields: seq<nat>): seq<Byte> {
    MAGIC + HexFields(fields, false) + [0]
  }

  /** The format refuses it, and the iterator goes back to the start. */
  lemma WrapsBack(fields: seq<nat>)
    requires Wrapping(fields)
    ensures Next(Lone(fields), 0).Bad? && Read(Lone(fields), 0) == Got(Entry(fields, [], []), 0)
  {
    hide HexFields, ParseFields;
    var a := Lone(fields);
    assert a[0..6] == MAGIC && a[6..110] == HexFields(fields, false) && a[110] == 0;
    FieldsParse(a, 6, fields, false);
    NameReads(a, 110, []);
  }

  /** Searching it for a name never ends. */
  lemma {:induction false} NeverEnds(fields: seq<nat>, name: seq<Byte>, room: nat, steps: nat)
    requires Wrapping(fields) && name != []
    ensures Search(Lone(fields), 0, name, room, steps) == Unfinished
    decreases steps
  {
    hide Read, Next, Lone;
    WrapsBack(fields);
    if steps > 0 {
      NeverEnds(fields, name, room, steps - 1);
    }
  }

  const FAR_NAME: seq<nat> := [0, 0, 0, 0, 0, 0, 0, 0, 0, 0, 0, 0xFFFF_FF92, 0]

  /** One such archive, and no number of steps is enough. */
  lemma FarNameNeverEnds(name: seq<Byte>, room: nat)
    requires name != []
    ensures forall steps :: Search(Lone(FAR_NAME), 0, name, room, steps) == Unfinished
  {
    hide Search, Lone;
    forall steps: nat {
      NeverEnds(FAR_NAME, name, room, steps);
    }
  }
}
