/** Finding a file: by scanning the archive, and by the index the ramdisk keeps of it. */
module Lookup {
  import opened Numbers
  import opened Cpio

  /** Unfinished is for a search that was given up. */
  datatype Extracted = File(data: seq<Byte>) | NotFound | Corrupt | Overflow | Unfinished

  /** Scan from pos on for the first entry of that name. */
  function Scan(a: seq<Byte>, pos: nat, name: seq<Byte>, room: nat): Extracted
    decreases |a| - pos
  {
    match Next(a, pos)
    case Bad => Corrupt
    case End => NotFound
    case Got(e, next) =>
      if e.name == name then if |e.data| > room then Overflow else File(e.data)
      else Scan(a, next, name, room)
  }

  predicate StartsWell(a: seq<Byte>) {
    |a| >= 6 && a[..6] == MAGIC
  }

  function Extract(a: seq<Byte>, name: seq<Byte>, room: nat): Extracted {
    if StartsWell(a) then Scan(a, 0, name, room) else Corrupt
  }

  /** Collect the files that are not empty, at most 128, from pos on; stop at the next entry once
      the table is full. */
  function Collect(a: seq<Byte>, pos: nat, files: seq<Entry>): Option<seq<Entry>>
    decreases |a| - pos
  {
    match Next(a, pos)
    case Bad => None
    case End => Some(files)
    case Got(e, next) =>
      if |files| >= 128 then Some(files) else Collect(a, next, if e.data == [] then files else files + [e])
  }

  // ---- On lists of entries ----

  function FirstNamed(es: seq<Entry>, name: seq<Byte>): Option<Entry> {
    if es == [] then None else if es[0].name == name then Some(es[0]) else FirstNamed(es[1..], name)
  }

  function NonEmpty(es: seq<Entry>): seq<Entry> {
    if es == [] then [] else (if es[0].data == [] then [] else [es[0]]) + NonEmpty(es[1..])
  }

  function Upto(es: seq<Entry>, n: nat): seq<Entry> {
    if |es| <= n then es else es[..n]
  }

  /** How many entries that are not empty come before the first of that name. */
  function Rank(es: seq<Entry>, name: seq<Byte>): nat {
    if es == [] || es[0].name == name then 0 else (if es[0].data == [] then 0 else 1) + Rank(es[1..], name)
  }

  lemma {:induction false} ScanIs(a: seq<Byte>, pos: nat, name: seq<Byte>, room: nat)
    requires Entries(a, pos).Some?
    ensures var x := FirstNamed(Entries(a, pos).value, name);
            Scan(a, pos, name, room) ==
              if x.None? then NotFound else if |x.value.data| > room then Overflow else File(x.value.data)
    decreases |a| - pos
  {
    hide Next;
    match Next(a, pos)
    case End =>
    case Got(e, next) =>
      ScanIs(a, next, name, room);
      assert ([e] + Entries(a, next).value)[1..] == Entries(a, next).value;
  }

  lemma {:induction false} CollectIs(a: seq<Byte>, pos: nat, files: seq<Entry>)
    requires Entries(a, pos).Some? && |files| <= 128
    ensures Collect(a, pos, files) == Some(Upto(files + NonEmpty(Entries(a, pos).value), 128))
    decreases |a| - pos
  {
    hide Next;
    match Next(a, pos)
    case End => assert files + [] == files;
    case Got(e, next) =>
      var rest := Entries(a, next).value;
      assert ([e] + rest)[1..] == rest;
      if |files| == 128 {
        assert (files + NonEmpty([e] + rest))[..128] == files;
      } else {
        var more := if e.data == [] then files else files + [e];
        CollectIs(a, next, more);
        assert files + NonEmpty([e] + rest) == more + NonEmpty(rest);
      }
  }

  lemma {:induction false} NamedAmongNonEmpty(es: seq<Entry>, name: seq<Byte>, n: nat)
    ensures var x := FirstNamed(es, name);
            x.None? || x.value.data != [] ==>
              FirstNamed(Upto(NonEmpty(es), n), name) == if Rank(es, name) < n then x else None
  {
    if es != [] {
      var tail := NonEmpty(es[1..]);
      if es[0].data == [] {
        if es[0].name != name {
          NamedAmongNonEmpty(es[1..], name, n);
        }
        assert NonEmpty(es) == tail;
      } else if n > 0 {
        if es[0].name != name {
          NamedAmongNonEmpty(es[1..], name, n - 1);
        }
        assert Upto([es[0]] + tail, n) == [es[0]] + Upto(tail, n - 1);
        assert ([es[0]] + Upto(tail, n - 1))[1..] == Upto(tail, n - 1);
      }
    }
  }

  lemma {:induction false} IndexHoldsFiles(es: seq<Entry>, name: seq<Byte>)
    requires forall e :: e in es ==> e.data != []
    ensures FirstNamed(es, name).Some? ==> FirstNamed(es, name).value.data != []
  {
    if es != [] {
      IndexHoldsFiles(es[1..], name);
    }
  }

  lemma {:induction false} NonEmptyHolds(es: seq<Entry>)
    ensures forall e :: e in NonEmpty(es) ==> e.data != []
  {
    if es != [] {
      NonEmptyHolds(es[1..]);
    }
  }

  /** The two ways of finding a file agree on a name. */
  ghost predicate Agree(found: Option<Entry>, extracted: Extracted) {
    match found
    case None => extracted == NotFound
    case Some(e) => extracted == File(e.data)
  }

  /** On a well-formed archive, with room for the file, the index and the scan agree on a name
      exactly when the archive has no such entry or its first one is not empty and is one of the
      first 128 that are not. */
  lemma AgreeIff(a: seq<Byte>, name: seq<Byte>, room: nat)
    requires StartsWell(a) && Entries(a, 0).Some?
    requires var x := FirstNamed(Entries(a, 0).value, name); x.Some? ==> |x.value.data| <= room
    ensures Collect(a, 0, []).Some?
    ensures var es := Entries(a, 0).value;
            var x := FirstNamed(es, name);
            Agree(FirstNamed(Collect(a, 0, []).value, name), Extract(a, name, room)) <==>
              x.None? || (x.value.data != [] && Rank(es, name) < 128)
  {
    hide FirstNamed, NonEmpty, Upto, Rank, Scan, Collect, Entries;
    var es := Entries(a, 0).value;
    ScanIs(a, 0, name, room);
    CollectIs(a, 0, []);
    assert [] + NonEmpty(es) == NonEmpty(es);
    NamedAmongNonEmpty(es, name, 128);
    UptoHolds(es);
    IndexHoldsFiles(Upto(NonEmpty(es), 128), name);
  }

  lemma UptoHolds(es: seq<Entry>)
    ensures forall e :: e in Upto(NonEmpty(es), 128) ==> e.data != []
  {
    hide NonEmpty;
    NonEmptyHolds(es);
  }

  lemma {:induction false} RankBelow(es: seq<Entry>, name: seq<Byte>)
    ensures var x := FirstNamed(es, name); x.Some? && x.value.data != [] ==> Rank(es, name) < |NonEmpty(es)|
    ensures FirstNamed(es, name).Some? ==> FirstNamed(es, name).value in es && FirstNamed(es, name).value.name == name
  {
    if es != [] {
      RankBelow(es[1..], name);
    }
  }

  /** With at most 128 files that are not empty, and no empty one of that name, they agree. */
  lemma FewFilesAgree(a: seq<Byte>, name: seq<Byte>, room: nat)
    requires StartsWell(a) && Entries(a, 0).Some?
    requires |NonEmpty(Entries(a, 0).value)| <= 128
    requires forall e :: e in Entries(a, 0).value && e.name == name ==> 0 < |e.data| <= room
    ensures Collect(a, 0, []).Some? && Agree(FirstNamed(Collect(a, 0, []).value, name), Extract(a, name, room))
  {
    hide FirstNamed, NonEmpty, Rank, Scan, Collect, Entries;
    RankBelow(Entries(a, 0).value, name);
    AgreeIff(a, name, room);
  }

  /** The printed archive starts as the readers want it. */
  lemma PrintedStartsWell(files: seq<Entry>, rest: seq<Byte>, upper: bool)
    ensures StartsWell(PrintArchive(files, upper) + rest)
  {
    hide PrintEntry, PrintFields;
    var e := if files == [] then TRAILER_ENTRY else files[0];
    var more := if files == [] then [] else PrintArchive(files[1..], upper);
    var a := PrintArchive(files, upper) + rest;
    assert a == [] + PrintEntry(e, upper) + (more + rest);
    PeelMagic(a, [], e, upper, more + rest);
  }

  /** Printing files and extracting a name gives the contents of the first file of that name. */
  lemma ExtractPrinted(files: seq<Entry>, upper: bool, name: seq<Byte>, room: nat)
    requires forall e :: e in files ==> Printable(e) && e.name != TRAILER
    ensures var x := FirstNamed(files, name);
            Extract(PrintArchive(files, upper), name, room) ==
              if x.None? then NotFound else if |x.value.data| > room then Overflow else File(x.value.data)
  {
    hide PrintArchive, Printable, Scan, Entries, StartsWell;
    var a := PrintArchive(files, upper);
    PrintedStartsWell(files, [], upper);
    RoundTrip([], files, [], upper);
    assert [] + a + [] == a && a + [] == a;
    ScanIs(a, 0, name, room);
  }
}
