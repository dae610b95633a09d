/** The newc archive format: what an archive means, and how files are printed into one. */
module Cpio {
  import opened Numbers

  /** The thirteen header fields in order, the name, and the file contents. */
  datatype Entry = Entry(fields: seq<nat>, name: seq<Byte>, data: seq<Byte>)

  datatype Outcome = Got(entry: Entry, next: nat) | End | Bad

  const MAGIC: seq<Byte> := [0x30, 0x37, 0x30, 0x37, 0x30, 0x31]

  const TRAILER: seq<Byte> := [0x54, 0x52, 0x41, 0x49, 0x4C, 0x45, 0x52, 0x21, 0x21, 0x21]

  // ---- Reading ----

  function HexValue(c: Byte): Option<nat> {
    if 0x30 <= c <= 0x39 then Some(c - 0x30)
    else if 0x61 <= c <= 0x66 then Some(c - 0x61 + 10)
    else if 0x41 <= c <= 0x46 then Some(c - 0x41 + 10)
    else None
  }

  function HexNext(v: Option<nat>, c: Byte): Option<nat> {
    var d := HexValue(c);
    if v.None? || d.None? then None else Some((v.value * 16 + d.value) % 0x1_0000_0000)
  }

  /** The number a field of hexadecimal digits stands for. */
  function ParseHex(s: seq<Byte>): Option<nat> {
    if s == [] then Some(0) else HexNext(ParseHex(s[..|s| - 1]), s[|s| - 1])
  }

  /** The n fields of eight digits from pos on. */
  function ParseFields(a: seq<Byte>, pos: nat, n: nat): (r: Option<seq<nat>>)
    requires pos + 8 * n <= |a|
    ensures r.Some? ==> |r.value| == n
  {
    if n == 0 then Some([])
    else
      var before := ParseFields(a, pos, n - 1);
      var last := ParseHex(a[pos + 8 * (n - 1)..pos + 8 * n]);
      if before.None? || last.None? then None else Some(before.value + [last.value])
  }

  /** The bytes from pos up to the first zero, or to the end of the archive. */
  function CString(a: seq<Byte>, pos: nat): seq<Byte>
    requires pos <= |a|
    decreases |a| - pos
  {
    if pos == |a| || a[pos] == 0 then [] else [a[pos]] + CString(a, pos + 1)
  }

  function Align4(n: nat): (r: nat)
    ensures n <= r < n + 4 && r % 4 == 0
  {
    (n + 3) / 4 * 4
  }

  /** What stands at pos. */
  function Next(a: seq<Byte>, pos: nat): (r: Outcome)
    ensures r.Got? ==> pos + 110 <= |a| && pos + 110 <= r.next
    ensures r.Got? ==> |r.entry.fields| == 13 && |r.entry.data| == r.entry.fields[6]
  {
    if pos >= |a| || |a| - pos < 110 || a[pos..pos + 6] != MAGIC then Bad
    else
      var fields := ParseFields(a, pos + 6, 13);
      if fields.None? then Bad
      else
        var nameSize, fileSize := fields.value[11], fields.value[6];
        if pos + 110 + nameSize > |a| then Bad
        else
          var name := CString(a, pos + 110);
          if name == TRAILER then End
          else
            var start := Align4(pos + 110 + nameSize);
            if start + fileSize > |a| then Bad
            else Got(Entry(fields.value, name, a[start..start + fileSize]), Align4(start + fileSize))
  }

  /** All entries from pos on, if the archive is well formed up to its trailer. */
  function Entries(a: seq<Byte>, pos: nat): Option<seq<Entry>>
    decreases |a| - pos
  {
    match Next(a, pos)
    case Bad => None
    case End => Some([])
    case Got(entry, next) =>
      var rest := Entries(a, next);
      if rest.None? then None else Some([entry] + rest.value)
  }

  // ---- Printing ----

  function HexDigit(d: nat, upper: bool): Byte
    requires d < 16
  {
    if d < 10 then 0x30 + d else if upper then 0x41 + d - 10 else 0x61 + d - 10
  }

  function Hex(n: nat, digits: nat, upper: bool): (s: seq<Byte>)
    ensures |s| == digits
  {
    if digits == 0 then [] else Hex(n / 16, digits - 1, upper) + [HexDigit(n % 16, upper)]
  }

  function HexFields(fields: seq<nat>, upper: bool): (s: seq<Byte>)
    ensures |s| == 8 * |fields|
  {
    if fields == [] then [] else HexFields(fields[..|fields| - 1], upper) + Hex(fields[|fields| - 1], 8, upper)
  }

  /** Zero bytes up to the next multiple of four. */
  function Padding(n: nat): (s: seq<Byte>)
    ensures |s| == Align4(n) - n
  {
    seq(Align4(n) - n, _ => 0)
  }

  function PrintData(e: Entry): seq<Byte> {
    e.data + Padding(|e.data|)
  }

  function PrintGap(e: Entry): seq<Byte> {
    Padding(110 + |e.name| + 1) + PrintData(e)
  }

  function PrintZero(e: Entry): seq<Byte> {
    [0] + PrintGap(e)
  }

  function PrintName(e: Entry): seq<Byte> {
    e.name + PrintZero(e)
  }

  function PrintFields(e: Entry, upper: bool): seq<Byte> {
    HexFields(e.fields, upper) + PrintName(e)
  }

  /** Magic, fields, name with its zero byte, padding, contents, padding. */
  function PrintEntry(e: Entry, upper: bool): seq<Byte> {
    MAGIC + PrintFields(e, upper)
  }

  const TRAILER_ENTRY := Entry([0, 0, 0, 0, 1, 0, 0, 0, 0, 0, 0, 11, 0], TRAILER, [])

  function PrintArchive(files: seq<Entry>, upper: bool): seq<Byte> {
    if files == [] then PrintEntry(TRAILER_ENTRY, upper)
    else PrintEntry(files[0], upper) + PrintArchive(files[1..], upper)
  }

  /** A file that can be printed: 32-bit fields that state its sizes, and a name without a zero
      byte that is not the trailer's. */
  ghost predicate Printable(e: Entry) {
    && |e.fields| == 13 && (forall i :: 0 <= i < 13 ==> e.fields[i] < 0x1_0000_0000)
    && e.fields[11] == |e.name| + 1 && e.fields[6] == |e.data|
    && 0 !in e.name
  }

  // ---- Round trip ----

  function Pow16(n: nat): nat {
    if n == 0 then 1 else 16 * Pow16(n - 1)
  }

  lemma DigitBack(d: nat, upper: bool)
    requires d < 16
    ensures HexValue(HexDigit(d, upper)) == Some(d)
  {
  }

  lemma Whole(n: nat)
    requires n < 0x1_0000_0000
    ensures (n / 16 * 16 + n % 16) % 0x1_0000_0000 == n
  {
  }

  lemma {:induction false} HexParses(n: nat, digits: nat, upper: bool)
    requires n < Pow16(digits) && n < 0x1_0000_0000
    ensures ParseHex(Hex(n, digits, upper)) == Some(n)
  {
    hide HexValue, HexDigit;
    if digits > 0 {
      var s := Hex(n, digits, upper);
      HexParses(n / 16, digits - 1, upper);
      assert s[..|s| - 1] == Hex(n / 16, digits - 1, upper);
      DigitBack(n % 16, upper);
      Whole(n);
    }
  }

  lemma EightDigits()
    ensures Pow16(8) == 0x1_0000_0000
  {
    assert Pow16(4) == 0x1_0000;
  }

  lemma FieldParses(n: nat, upper: bool)
    requires n < 0x1_0000_0000
    ensures ParseHex(Hex(n, 8, upper)) == Some(n)
  {
    hide Hex, ParseHex;
    EightDigits();
    HexParses(n, 8, upper);
  }

  lemma TwoSlices(a: seq<Byte>, p: nat, q: nat, r: nat, x: seq<Byte>, y: seq<Byte>)
    requires p <= q <= r <= |a| && a[p..r] == x + y && |x| == q - p
    ensures a[p..q] == x && a[q..r] == y
  {
    assert a[p..r] == a[p..q] + a[q..r];
    assert (x + y)[..q - p] == x && (x + y)[q - p..] == y;
  }

  lemma {:induction false} FieldsParse(a: seq<Byte>, pos: nat, fields: seq<nat>, upper: bool)
    requires pos + 8 * |fields| <= |a| && a[pos..pos + 8 * |fields|] == HexFields(fields, upper)
    requires forall i :: 0 <= i < |fields| ==> fields[i] < 0x1_0000_0000
    ensures ParseFields(a, pos, |fields|) == Some(fields)
  {
    hide Hex, ParseHex;
    var n := |fields|;
    if n > 0 {
      var before, last := fields[..n - 1], fields[n - 1];
      TwoSlices(a, pos, pos + 8 * (n - 1), pos + 8 * n, HexFields(before, upper), Hex(last, 8, upper));
      FieldsParse(a, pos, before, upper);
      FieldParses(last, upper);
      assert before + [last] == fields;
    }
  }

  lemma {:induction false} NameReads(a: seq<Byte>, pos: nat, name: seq<Byte>)
    requires pos + |name| < |a| && a[pos..pos + |name|] == name && a[pos + |name|] == 0 && 0 !in name
    ensures CString(a, pos) == name
    decreases |name|
  {
    if name != [] {
      assert a[pos] == name[0] && name[0] in name;
      assert a[pos + 1..pos + |name|] == name[1..];
      NameReads(a, pos + 1, name[1..]);
    }
  }

  lemma AlignShift(p: nat, n: nat)
    requires p % 4 == 0
    ensures Align4(p + n) == p + Align4(n)
  {
  }

  /** Where the parts of a printed entry lie in an archive. */
  ghost predicate LaidOut(a: seq<Byte>, p: nat, e: Entry, upper: bool) {
    && |e.fields| == 13
    && var n := p + 110 + |e.name|;
    var start := n + 1 + |Padding(110 + |e.name| + 1)|;
    && start + |e.data| <= |a|
    && a[p..p + 6] == MAGIC && a[p + 6..p + 110] == HexFields(e.fields, upper)
    && a[p + 110..n] == e.name && a[n] == 0 && a[start..start + |e.data|] == e.data
  }

  /** The first part of what stands at i, and what follows it. */
  lemma Peel(a: seq<Byte>, i: nat, x: seq<Byte>, y: seq<Byte>, rest: seq<Byte>)
    requires i <= |a| && a[i..] == (x + y) + rest
    ensures i + |x| <= |a| && a[i..i + |x|] == x && a[i + |x|..] == y + rest
  {
    var s := a[i..];
    assert s == x + (y + rest);
    assert a[i..i + |x|] == s[..|x|] && a[i + |x|..] == s[|x|..];
  }

  lemma PrintedIsLaidOut(prefix: seq<Byte>, e: Entry, rest: seq<Byte>, upper: bool)
    requires |e.fields| == 13
    ensures LaidOut(prefix + PrintEntry(e, upper) + rest, |prefix|, e, upper)
  {
    hide HexFields, Padding, PrintEntry, PrintFields, PrintName, PrintZero, PrintGap, PrintData;
    var a := prefix + PrintEntry(e, upper) + rest;
    var i := |prefix|;
    PeelMagic(a, prefix, e, upper, rest);
    PeelFields(a, i + 6, e, upper, rest);
    PeelName(a, i + 110, e, rest);
    PeelZero(a, i + 110 + |e.name|, e, rest);
    PeelGap(a, i + 110 + |e.name| + 1, e, rest);
  }

  lemma PeelMagic(a: seq<Byte>, prefix: seq<Byte>, e: Entry, upper: bool, rest: seq<Byte>)
    requires a == prefix + PrintEntry(e, upper) + rest
    ensures var i := |prefix|; i + 6 <= |a| && a[i..i + 6] == MAGIC && a[i + 6..] == PrintFields(e, upper) + rest
  {
    hide PrintFields;
    assert a[|prefix|..] == (MAGIC + PrintFields(e, upper)) + rest;
    Peel(a, |prefix|, MAGIC, PrintFields(e, upper), rest);
  }

  lemma PeelFields(a: seq<Byte>, i: nat, e: Entry, upper: bool, rest: seq<Byte>)
    requires |e.fields| == 13 && i <= |a| && a[i..] == PrintFields(e, upper) + rest
    ensures i + 104 <= |a| && a[i..i + 104] == HexFields(e.fields, upper) && a[i + 104..] == PrintName(e) + rest
  {
    hide HexFields, PrintName;
    Peel(a, i, HexFields(e.fields, upper), PrintName(e), rest);
  }

  lemma PeelName(a: seq<Byte>, i: nat, e: Entry, rest: seq<Byte>)
    requires i <= |a| && a[i..] == PrintName(e) + rest
    ensures i + |e.name| <= |a| && a[i..i + |e.name|] == e.name && a[i + |e.name|..] == PrintZero(e) + rest
  {
    hide PrintZero;
    Peel(a, i, e.name, PrintZero(e), rest);
  }

  lemma PeelZero(a: seq<Byte>, i: nat, e: Entry, rest: seq<Byte>)
    requires i <= |a| && a[i..] == PrintZero(e) + rest
    ensures i < |a| && a[i] == 0 && a[i + 1..] == PrintGap(e) + rest
  {
    hide PrintGap;
    Peel(a, i, [0], PrintGap(e), rest);
    assert a[i..i + 1][0] == 0;
  }

  lemma PeelGap(a: seq<Byte>, i: nat, e: Entry, rest: seq<Byte>)
    requires i <= |a| && a[i..] == PrintGap(e) + rest
    ensures var start := i + |Padding(110 + |e.name| + 1)|;
            start + |e.data| <= |a| && a[start..start + |e.data|] == e.data
  {
    hide Padding;
    Peel(a, i, Padding(110 + |e.name| + 1), PrintData(e), rest);
    Peel(a, i + |Padding(110 + |e.name| + 1)|, e.data, Padding(|e.data|), rest);
  }

  lemma PrintSize(e: Entry, upper: bool)
    requires |e.fields| == 13
    ensures |PrintEntry(e, upper)| == Align4(110 + |e.name| + 1) + Align4(|e.data|)
    ensures |PrintEntry(e, upper)| % 4 == 0
  {
  }

  /** Reading where an entry was printed gives the entry and the place after it. */
  lemma NextReads(a: seq<Byte>, p: nat, e: Entry, upper: bool)
    requires LaidOut(a, p, e, upper) && Printable(e) && p % 4 == 0
    ensures Next(a, p) == if e.name == TRAILER then End
                          else Got(e, p + Align4(110 + |e.name| + 1) + Align4(|e.data|))
  {
    hide HexFields, ParseFields, CString, Align4;
    FieldsParse(a, p + 6, e.fields, upper);
    NameReads(a, p + 110, e.name);
    AlignShift(p, 110 + |e.name| + 1);
    AlignShift(p + Align4(110 + |e.name| + 1), |e.data|);
  }

  lemma Regroup(p: seq<Byte>, f: seq<Byte>, m: seq<Byte>, r: seq<Byte>)
    ensures p + (f + m) + r == p + f + (m + r) == (p + f) + m + r
  {
  }

  /** Printing any files and reading the archive back gives the same files in the same order, and
      then the end. */
  lemma {:induction false} RoundTrip(prefix: seq<Byte>, files: seq<Entry>, rest: seq<Byte>, upper: bool)
    requires |prefix| % 4 == 0 && forall e :: e in files ==> Printable(e) && e.name != TRAILER
    ensures Entries(prefix + PrintArchive(files, upper) + rest, |prefix|) == Some(files)
    decreases |files|
  {
    hide PrintEntry, Next, LaidOut, Printable;
    var a := prefix + PrintArchive(files, upper) + rest;
    if files == [] {
      PrintedIsLaidOut(prefix, TRAILER_ENTRY, rest, upper);
      TrailerPrintable();
      NextReads(a, |prefix|, TRAILER_ENTRY, upper);
    } else {
      var e := files[0];
      var first, more := PrintEntry(e, upper), PrintArchive(files[1..], upper);
      Regroup(prefix, first, more, rest);
      PrintableFields(e);
      PrintedIsLaidOut(prefix, e, more + rest, upper);
      NextReads(a, |prefix|, e, upper);
      PrintSize(e, upper);
      RoundTrip(prefix + first, files[1..], rest, upper);
      assert [e] + files[1..] == files;
    }
  }

  lemma TrailerPrintable()
    ensures Printable(TRAILER_ENTRY)
  {
  }

  lemma PrintableFields(e: Entry)
    requires Printable(e)
    ensures |e.fields| == 13
  {
  }
}
