/** The archive iterator of cpio.c and the file table of ramdisk.c. */
module ArchiveReader {
  import opened Numbers
  import opened Cpio
  import opened Lookup
  import opened Cpio32

  method ParseField(a: seq<Byte>, pos: nat, len: nat) returns (v: Option<nat>)
    requires 1 <= len && pos + len <= |a|
    ensures v == ParseHex(a[pos..pos + len])
  {
    ghost var s := a[pos..pos + len];
    var val: nat := 0;
    for i := 0 to len
      invariant ParseHex(s[..i]) == Some(val)
    {
      assert s[..i + 1][..i] == s[..i];
      var c := a[pos + i];
      var digit: nat;
      if 0x30 <= c <= 0x39 {
        digit := c - 0x30;
      } else if 0x61 <= c <= 0x66 {
        digit := c - 0x61 + 10;
      } else if 0x41 <= c <= 0x46 {
        digit := c - 0x41 + 10;
      } else {
        BadDigit(s, i);
        return None;
      }
      val := (val * 16 + digit) % 0x1_0000_0000;
    }
    assert s[..len] == s;
    return Some(val);
  }

  /** One bad digit spoils the field. */
  lemma {:induction false} BadDigit(s: seq<Byte>, i: nat)
    requires i < |s| && HexValue(s[i]).None?
    ensures ParseHex(s).None?
  {
    var n := |s| - 1;
    if i < n {
      BadDigit(s[..n], i);
    }
  }

  /** The byte at i, with a zero byte after the end. */
  function ByteAt(s: seq<Byte>, i: nat): Byte {
    if i < |s| then s[i] else 0
  }

  lemma {:induction false} CStringAt(a: seq<Byte>, pos: nat, i: nat)
    requires pos <= |a| && i <= |CString(a, pos)|
    ensures pos + i <= |a| && ByteAt(CString(a, pos), i) == ByteAt(a, pos + i) && 0 !in CString(a, pos)
    decreases |a| - pos
  {
    if pos < |a| && a[pos] != 0 {
      CStringAt(a, pos + 1, if i == 0 then 0 else i - 1);
    }
  }

  /** Compare the string at pos with s. */
  method StrEqual(a: seq<Byte>, pos: nat, s: seq<Byte>) returns (same: bool)
    requires pos <= |a| && 0 !in s
    ensures same <==> CString(a, pos) == s
  {
    ghost var name := CString(a, pos);
    var i := 0;
    CStringAt(a, pos, 0);
    while ByteAt(a, pos + i) != 0 && ByteAt(s, i) != 0
      invariant i <= |name| && i <= |s| && name[..i] == s[..i] && ByteAt(name, i) == ByteAt(a, pos + i) && 0 !in name
      decreases |s| - i
    {
      if ByteAt(a, pos + i) != ByteAt(s, i) {
        return false;
      }
      i := i + 1;
      CStringAt(a, pos, i);
    }
    assert i < |name| ==> name[i] in name;
    assert i < |s| ==> s[i] in s;
    same := ByteAt(a, pos + i) == ByteAt(s, i);
    assert name[..|name|] == name && s[..|s|] == s;
  }

  /** Compare two strings up to their zero bytes. */
  method SameName(f: seq<Byte>, e: seq<Byte>) returns (same: bool)
    requires 0 !in f && 0 !in e
    ensures same <==> f == e
  {
    var i := 0;
    while ByteAt(f, i) != 0 && ByteAt(e, i) != 0
      invariant i <= |f| && i <= |e| && f[..i] == e[..i]
      decreases |f| - i
    {
      if ByteAt(f, i) != ByteAt(e, i) {
        break;
      }
      i := i + 1;
    }
    assert i < |f| ==> f[i] in f;
    assert i < |e| ==> e[i] in e;
    same := ByteAt(f, i) == 0 && ByteAt(e, i) == 0;
    assert f[..|f|] == f && e[..|e|] == e;
  }

  /** Names that are read have no zero byte. */
  lemma ReadNames(a: seq<Byte>, pos: nat)
    ensures Read(a, pos).Got? ==> 0 !in Read(a, pos).entry.name
  {
    hide ParseFields;
    if pos + 110 <= |a| {
      CStringAt(a, pos + 110, 0);
    }
  }

  class Iterator {
    const archive: seq<Byte>
    var pos: nat
    var count: nat

    constructor (archive: seq<Byte>)
      ensures this.archive == archive && pos == 0 && count == 0
    {
      this.archive, pos, count := archive, 0, 0;
    }

    /** The thirteen header fields, or nothing if one of them is not a number. */
    method Header() returns (fields: Option<seq<nat>>)
      requires pos + 110 <= |archive|
      ensures fields == ParseFields(archive, pos + 6, 13)
    {
      var read: seq<nat> := [];
      for i := 0 to 13
        invariant ParseFields(archive, pos + 6, i) == Some(read)
      {
        var v := ParseField(archive, pos + 6 + 8 * i, 8);
        if v.None? {
          FieldsFail(archive, pos + 6, i, 13);
          return None;
        }
        read := read + [v.value];
      }
      return Some(read);
    }

    /** Read the entry at the position and move past it. */
    method Next() returns (r: Outcome)
      modifies this
      ensures r == Read(archive, old(pos))
      ensures if r.Got? then pos == r.next && count == old(count) + 1 else pos == old(pos) && count == old(count)
    {
      hide ParseFields, CString, Clip, Add32, Align32;
      if pos >= |archive| || |archive| - pos < 6 || archive[pos..pos + 6] != MAGIC || |archive| - pos < 110 {
        return Bad;
      }
      var fields := Header();
      if fields.None? {
        return Bad;
      }
      var fileSize, nameSize := fields.value[6], fields.value[11];
      var p := pos + 110;
      if Add32(p, nameSize) > |archive| {
        return Bad;
      }
      var trailer := StrEqual(archive, p, TRAILER);
      if trailer {
        return End;
      }
      var name := ReadName(archive, p);
      p := Align32(Add32(p, nameSize));
      if Add32(p, fileSize) > |archive| {
        return Bad;
      }
      r := Got(Entry(fields.value, name, Clip(archive, p, fileSize)), Align32(Add32(p, fileSize)));
      pos := r.next;
      count := count + 1;
    }
  }

  /** A field that is not a number spoils all that follow. */
  lemma {:induction false} FieldsFail(a: seq<Byte>, pos: nat, i: nat, n: nat)
    requires i < n && pos + 8 * n <= |a| && ParseHex(a[pos + 8 * i..pos + 8 * (i + 1)]).None?
    ensures ParseFields(a, pos, n).None?
  {
    if i < n - 1 {
      FieldsFail(a, pos, i, n - 1);
    }
  }

  /** One more byte of a name that has reached end. */
  lemma NameGrows(a: seq<Byte>, pos: nat, end: nat)
    requires pos <= end < |a| && a[end] != 0
    ensures a[pos..end] + CString(a, end) == a[pos..end + 1] + CString(a, end + 1)
  {
    assert a[pos..end + 1] == a[pos..end] + [a[end]];
    assert CString(a, end) == [a[end]] + CString(a, end + 1);
  }

  /** The name an entry points to. */
  method ReadName(a: seq<Byte>, pos: nat) returns (name: seq<Byte>)
    requires pos <= |a|
    ensures name == CString(a, pos)
  {
    var end := pos;
    assert a[pos..pos] + CString(a, pos) == CString(a, pos);
    while end < |a| && a[end] != 0
      invariant pos <= end <= |a| && a[pos..end] + CString(a, end) == CString(a, pos)
    {
      NameGrows(a, pos, end);
      end := end + 1;
    }
    assert CString(a, end) == [];
    return a[pos..end];
  }

  /** Copy the first file of that name to the destination, reading at most steps entries. */
  method ExtractFile(archive: seq<Byte>, name: seq<Byte>, dst: array<Byte>, steps: nat) returns (r: Extracted)
    requires 0 !in name
    modifies dst
    ensures r == if StartsWell(archive) then Search(archive, 0, name, dst.Length, steps) else Corrupt
    ensures r.File? ==> |r.data| <= dst.Length
    ensures if r.File? then dst[..|r.data|] == r.data && dst[|r.data|..] == old(dst[|r.data|..])
            else dst[..] == old(dst[..])
  {
    if |archive| < 6 || archive[..6] != MAGIC {
      return Corrupt;
    }
    var iter := new Iterator(archive);
    for i := 0 to steps
      invariant iter.archive == archive && fresh(iter) && dst[..] == old(dst[..])
      invariant Search(archive, 0, name, dst.Length, steps) == Search(archive, iter.pos, name, dst.Length, steps - i)
    {
      ghost var before := iter.pos;
      var item := iter.Next();
      match item {
        case End => return NotFound;
        case Bad => return Corrupt;
        case Got(e, _) =>
          ReadNames(archive, before);
          var same := SameName(name, e.name);
          if same {
            if e.fields[6] > dst.Length {
              return Overflow;
            }
            ReadSize(archive, before);
            Fill(dst, e.data);
            return File(e.data);
          }
      }
    }
    return Unfinished;
  }

  /** No more bytes than the size field says. */
  lemma ReadSize(a: seq<Byte>, pos: nat)
    ensures Read(a, pos).Got? ==> |Read(a, pos).entry.data| <= Read(a, pos).entry.fields[6]
  {
    hide ParseFields, CString;
  }

  method Fill(dst: array<Byte>, data: seq<Byte>)
    requires |data| <= dst.Length
    modifies dst
    ensures dst[..|data|] == data && dst[|data|..] == old(dst[|data|..])
  {
    for i := 0 to |data|
      invariant dst[..i] == data[..i] && dst[|data|..] == old(dst[|data|..])
    {
      dst[i] := data[i];
    }
  }

  // ---- The ramdisk ----

  /** UNFINISHED is for indexing that was given up. */
  datatype Status = OK | CORRUPTED | NO_SUCH_FILE | UNFINISHED

  datatype FileRecord = FileRecord(name: seq<Byte>, data: seq<Byte>, size: nat, mode: nat, mtime: nat)

  function RecordOf(e: Entry): FileRecord
    requires |e.fields| == 13
  {
    FileRecord(e.name, e.data, e.fields[6], e.fields[1], e.fields[5])
  }

  ghost predicate Tabled(files: seq<FileRecord>, index: seq<Entry>) {
    && |index| <= |files|
    && forall i :: 0 <= i < |index| ==> |index[i].fields| == 13 && files[i] == RecordOf(index[i]) && 0 !in index[i].name
  }

  class Ramdisk {
    const files: array<FileRecord>
    var fileCount: nat
    var initialized: bool
    ghost var index: seq<Entry>

    ghost predicate Valid()
      reads this, files
    {
      files.Length == 128 && fileCount == |index| && Tabled(files[..], index)
    }

    constructor ()
      ensures Valid() && !initialized && index == [] && fresh(files)
    {
      files := new FileRecord[128](_ => FileRecord([], [], 0, 0, 0));
      fileCount, initialized, index := 0, false, [];
    }

    /** Fill the table from an archive, once, reading at most steps entries. */
    method InitFromArchive(archive: seq<Byte>, steps: nat) returns (r: Status)
      requires Valid() && (!initialized ==> index == [])
      modifies this, files
      ensures Valid()
      ensures archive == [] ==> r == CORRUPTED && index == old(index) && initialized == old(initialized)
      ensures archive != [] && old(initialized) ==> r == OK && index == old(index) && initialized
      ensures archive != [] && !old(initialized) ==>
        var loaded := if StartsWell(archive) then Load(archive, 0, [], steps) else Spoilt;
        if loaded.Table? then r == OK && initialized && index == loaded.files
        else r == (if loaded.Spoilt? then CORRUPTED else UNFINISHED) && !initialized && index == []
    {
      hide Read;
      if archive == [] {
        return CORRUPTED;
      }
      if initialized {
        return OK;
      }
      if |archive| < 6 || archive[..6] != MAGIC {
        return CORRUPTED;
      }
      var iter := new Iterator(archive);
      ghost var found: seq<Entry> := [];
      var n, done := 0, false;
      for i := 0 to steps
        invariant !done && files.Length == 128 && n == |found| <= 128 && Tabled(files[..], found) &&
                  iter.archive == archive && fresh(iter)
        invariant fileCount == 0 && !initialized && index == []
        invariant Load(archive, 0, [], steps) == Load(archive, iter.pos, found, steps - i)
      {
        ghost var before := iter.pos;
        var item := iter.Next();
        match item {
          case End =>
            done := true;
            break;
          case Bad => return CORRUPTED;
          case Got(e, _) =>
            if n >= 128 {
              done := true;
              break;
            }
            if e.fields[6] != 0 {
              ReadNames(archive, before);
              files[n] := FileRecord(e.name, e.data, e.fields[6], e.fields[1], e.fields[5]);
              n := n + 1;
              found := found + [e];
            }
        }
      }
      if !done {
        return UNFINISHED;
      }
      fileCount := n;
      index := found;
      initialized := true;
      return OK;
    }

    /** The first file of that name in the table. */
    method Lookup(name: seq<Byte>) returns (r: Status, file: Option<FileRecord>)
      requires Valid() && 0 !in name
      ensures !initialized ==> r == CORRUPTED && file == None
      ensures initialized ==>
        var x := FirstNamed(index, name);
        if x.None? then r == NO_SUCH_FILE && file == None
        else
          var e := x.value;
          r == OK && |e.fields| == 13 && file == Some(FileRecord(e.name, e.data, e.fields[6], e.fields[1], e.fields[5]))
    {
      if !initialized {
        return CORRUPTED, None;
      }
      assert index[0..] == index;
      for i := 0 to fileCount
        invariant FirstNamed(index, name) == FirstNamed(index[i..], name)
      {
        var same := SameName(name, files[i].name);
        assert index[i..][0] == index[i] && index[i..][1..] == index[i + 1..];
        if same {
          return OK, Some(files[i]);
        }
      }
      return NO_SUCH_FILE, None;
    }

    method GetFile(i: nat) returns (r: Status, file: Option<FileRecord>)
      requires Valid()
      ensures !initialized ==> r == CORRUPTED && file == None
      ensures initialized && i >= |index| ==> r == NO_SUCH_FILE && file == None
      ensures initialized && i < |index| ==>
        var e := index[i];
        r == OK && |e.fields| == 13 && file == Some(FileRecord(e.name, e.data, e.fields[6], e.fields[1], e.fields[5]))
    {
      if !initialized {
        return CORRUPTED, None;
      }
      if i >= fileCount {
        return NO_SUCH_FILE, None;
      }
      return OK, Some(files[i]);
    }
  }
}
