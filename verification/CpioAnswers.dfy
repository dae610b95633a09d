/** The newc format in numbers: its digits, where each number of a header stands, and what follows. */
module CpioAnswers {
  import opened Numbers
  import opened Cpio

  /** The sixteen digits, the last six in either case. */
  lemma DigitIff(c: Byte, d: nat)
    ensures HexValue(c) == Some(d) <==>
            (d <= 9 && c == 0x30 + d) || (10 <= d <= 15 && (c == 0x61 + (d - 10) || c == 0x41 + (d - 10)))
  {
  }

  /** One more digit: sixteen times as much and the digit, in 32 bits. */
  lemma ParseStep(s: seq<Byte>, c: Byte)
    ensures ParseHex([]) == Some(0)
    ensures ParseHex(s + [c]) ==
            if ParseHex(s).None? || HexValue(c).None? then None
            else Some((16 * ParseHex(s).value + HexValue(c).value) % 0x1_0000_0000)
  {
    assert (s + [c])[..|s|] == s;
  }

  lemma {:induction false} FieldsAt(a: seq<Byte>, pos: nat, n: nat)
    requires pos + 8 * n <= |a|
    ensures ParseFields(a, pos, n).Some? <==> forall i :: 0 <= i < n ==> ParseHex(a[pos + 8 * i..pos + 8 * i + 8]).Some?
    ensures ParseFields(a, pos, n).Some? ==>
              forall i :: 0 <= i < n ==>
                ParseHex(a[pos + 8 * i..pos + 8 * i + 8]) == Some(ParseFields(a, pos, n).value[i])
  {
    hide ParseHex;
    if n > 0 {
      FieldsAt(a, pos, n - 1);
      assert a[pos + 8 * (n - 1)..pos + 8 * n] == a[pos + 8 * (n - 1)..pos + 8 * (n - 1) + 8];
    }
  }

  /** A header: the magic 070701 and thirteen numbers of eight digits. */
  ghost predicate HeaderAt(a: seq<Byte>, pos: nat) {
    && pos + 110 <= |a| && a[pos..pos + 6] == [0x30, 0x37, 0x30, 0x37, 0x30, 0x31]
    && forall i :: 0 <= i < 13 ==> ParseHex(a[pos + 6 + 8 * i..pos + 6 + 8 * i + 8]).Some?
  }

  /** The number of the header that stands k bytes into it. */
  ghost function NumberAt(a: seq<Byte>, pos: nat, k: nat): nat
    requires pos + k + 8 <= |a| && ParseHex(a[pos + k..pos + k + 8]).Some?
  {
    ParseHex(a[pos + k..pos + k + 8]).value
  }

  /** What stands at pos: without a header nothing; the name size is 94 bytes and the file size 54
      bytes into it; the name starts after 110 bytes and the file at the next multiple of four after
      the name; `TRAILER!!!` ends the archive; the next entry follows at a multiple of four. */
  lemma NextAnswers(a: seq<Byte>, pos: nat)
    ensures !HeaderAt(a, pos) ==> Next(a, pos) == Bad
    ensures HeaderAt(a, pos) ==>
              && ParseHex(a[pos + 94..pos + 102]).Some? && ParseHex(a[pos + 54..pos + 62]).Some?
              && var name, size := NumberAt(a, pos, 94), NumberAt(a, pos, 54);
              var last := CString(a, pos + 110) == [0x54, 0x52, 0x41, 0x49, 0x4C, 0x45, 0x52, 0x21, 0x21, 0x21];
              var start := Align4(pos + 110 + name);
              var r := Next(a, pos);
              && (r == End <==> pos + 110 + name <= |a| && last)
              && (r == Bad <==> pos + 110 + name > |a| || (!last && start + size > |a|))
              && (r.Got? ==>
                    && r.entry.name == CString(a, pos + 110) && start + size <= |a|
                    && r.entry.data == a[start..start + size] && r.next == Align4(start + size)
                    && |r.entry.fields| == 13 && r.entry.fields[6] == size && r.entry.fields[11] == name)
  {
    hide ParseFields, ParseHex, CString, Align4;
    if pos + 110 <= |a| {
      FieldsAt(a, pos + 6, 13);
      if HeaderAt(a, pos) {
        FieldsAgree(a, pos, 6, 54);
        FieldsAgree(a, pos, 11, 94);
      }
    }
  }

  lemma FieldsAgree(a: seq<Byte>, pos: nat, i: nat, k: nat)
    requires HeaderAt(a, pos) && i < 13 && k == 6 + 8 * i
    ensures ParseFields(a, pos + 6, 13).Some? && ParseHex(a[pos + k..pos + k + 8]).Some?
    ensures ParseFields(a, pos + 6, 13).value[i] == NumberAt(a, pos, k)
  {
    hide ParseFields, ParseHex;
    FieldsAt(a, pos + 6, 13);
    assert pos + 6 + 8 * i == pos + k;
  }
}
