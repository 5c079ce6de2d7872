/** The export-symbol listing of `Tools/rso_sym.py`: it reads the export table
    of an RSO module (big-endian words at fixed offsets of its header), turns
    each exported symbol into a line `address section name`, and prints the
    lines in sorted order.  Reading the file is not modelled: the walk takes
    the file's bytes and returns the lines it prints. */
module RsoSymbols {
  import opened Failures
  import opened PyStr
  import opened Util

  newtype byte = x: int | 0 <= x < 256

  /** `SECTION_TO_ADDRESS`: where each section of the module is loaded. */
  const SectionToAddress: map<int, int> := map[
    1 := 0x80004000,   // .init
    2 := 0x800068E0,   // .text
    5 := 0x80544580,   // .rodata
    6 := 0x805650e0,   // .data
    7 := 0x805a7f80,   // .bss
    8 := 0x805A7F80,
    9 := 0x8061fc20,   // .sdata2
    11 := 0x8061EA80]  // .sbss

  /** `SECTIONS_TO_IGNORE`: the absolute-symbol section. */
  const SectionsToIgnore: set<int> := {65521}

  // ---------------------------------------------------------------------------
  // Decoding

  /** The unsigned big-endian number spelled by `bs`. */
  function BigEndian(bs: seq<byte>): (n: nat)
    ensures n < Pow256(|bs|)
    decreases |bs|
  {
    if bs == [] then 0 else BigEndian(bs[..|bs| - 1]) * 256 + bs[|bs| - 1] as nat
  }

  function Pow256(k: nat): nat {
    if k == 0 then 1 else 256 * Pow256(k - 1)
  }

  lemma BigEndianWord(w: seq<byte>)
    requires |w| == 4
    ensures BigEndian(w) == w[0] as int * 0x100_0000 + w[1] as int * 0x1_0000 + w[2] as int * 0x100 + w[3] as int
    ensures BigEndian(w) < 0x1_0000_0000
  {
    assert w[..3][..2][..1][..0] == [];
    assert w[..3][..2][..1] == [w[0]];
    assert w[..3][..2] == [w[0], w[1]];
    assert w[..3] == [w[0], w[1], w[2]];
    assert Pow256(4) == 0x1_0000_0000;
  }

  /** `get_u32(data, offset)`: `struct.unpack_from(">I", …)` fails when fewer
      than four bytes are left. */
  function GetU32(data: seq<byte>, offset: nat): (r: Result<int>)
    ensures r.Ok? <==> offset + 4 <= |data|
    ensures r.Err? ==> r == Err(StructError)
    ensures r.Ok? ==> 0 <= r.value < 0x1_0000_0000
  {
    if offset + 4 > |data| then Err(StructError)
    else
      var w := data[offset..offset + 4];
      BigEndianWord(w);
      Ok(BigEndian(w))
  }

  /** The word is big-endian: the first byte is the most significant. */
  lemma GetU32Bytes(data: seq<byte>, offset: nat)
    requires offset + 4 <= |data|
    ensures GetU32(data, offset).value == data[offset] as int * 0x100_0000 + data[offset + 1] as int * 0x1_0000
                                           + data[offset + 2] as int * 0x100 + data[offset + 3] as int
  {
    BigEndianWord(data[offset..offset + 4]);
  }

  /** The index of the first 0 byte at or after `from`, or `|data|`. */
  function FindNul(data: seq<byte>, from: nat): (i: nat)
    ensures from <= i <= |data| || (i == |data| && from > |data|)
    ensures i < |data| ==> data[i] == 0
    ensures forall k :: from <= k < i ==> data[k] != 0
    decreases |data| - from
  {
    if from >= |data| then |data| else if data[from] == 0 then from else FindNul(data, from + 1)
  }

  /** `read_nt_string(data, offset)`: the bytes up to the terminating 0;
      `ValueError` when there is none. */
  function ReadNtString(data: seq<byte>, offset: nat): (r: Result<seq<byte>>)
    ensures r.Err? <==> forall k :: offset <= k < |data| ==> data[k] != 0
    ensures r.Err? ==> r == Err(ValueError)
    ensures r.Ok? ==> offset + |r.value| < |data| && data[offset + |r.value|] == 0
                      && r.value == data[offset..offset + |r.value|]
    ensures r.Ok? ==> 0 !in r.value
  {
    var end := FindNul(data, offset);
    if end == |data| then Err(ValueError) else Ok(data[offset..end])
  }

  // ---------------------------------------------------------------------------
  // The export table

  /** The three header words the walk uses. */
  datatype RsoHeader = RsoHeader(tableOffset: nat, count: nat, namesOffset: nat)

  /** Offsets 0x40 (table), 0x44 (table size in bytes, 16 per entry) and 0x48
      (names). */
  function ReadHeader(data: seq<byte>): (r: Result<RsoHeader>)
    ensures r.Ok? ==> GetU32(data, 0x44).Ok? && r.value.count == GetU32(data, 0x44).value / 0x10
    ensures r.Ok? ==> && GetU32(data, 0x40).Ok? && r.value.tableOffset == GetU32(data, 0x40).value
                      && GetU32(data, 0x48).Ok? && r.value.namesOffset == GetU32(data, 0x48).value
    ensures r.Ok? <==> 0x4C <= |data|
  {
    var table :- GetU32(data, 0x40);
    var size :- GetU32(data, 0x44);
    var names :- GetU32(data, 0x48);
    Ok(RsoHeader(table, size / 0x10, names))
  }

  /** One entry of the export table, with its name already read. */
  datatype ExportEntry = ExportEntry(name: seq<byte>, symOffset: int, section: int)

  /** Entry `i`: three words at `table + 16 i`, and then the name they point
      to, read whatever the section is. */
  function ReadEntry(data: seq<byte>, h: RsoHeader, i: nat): Result<ExportEntry> {
    var at := h.tableOffset + i * 0x10;
    var nameOffset :- GetU32(data, at);
    var symOffset :- GetU32(data, at + 4);
    var section :- GetU32(data, at + 8);
    var name :- ReadNtString(data, h.namesOffset + nameOffset);
    Ok(ExportEntry(name, symOffset, section))
  }

  /** Where entry `i` comes from: the name offset at `table + 16 i`, the
      symbol offset and the section in the next two words, and the name,
      which must be terminated whatever the section is. */
  lemma EntryLayout(data: seq<byte>, h: RsoHeader, i: nat)
    ensures ReadEntry(data, h, i).Ok? <==>
              && h.tableOffset + i * 0x10 + 12 <= |data|
              && ReadNtString(data, h.namesOffset + GetU32(data, h.tableOffset + i * 0x10).value).Ok?
    ensures ReadEntry(data, h, i).Ok? ==>
              var e := ReadEntry(data, h, i).value;
              var at := h.tableOffset + i * 0x10;
              && GetU32(data, at + 4) == Ok(e.symOffset)
              && GetU32(data, at + 8) == Ok(e.section)
              && ReadNtString(data, h.namesOffset + GetU32(data, at).value) == Ok(e.name)
  {
  }

  /** What the walk does with one entry. */
  datatype Step = Skip | Emit(line: string) | Invalid(section: int)

  /** The name as text, one character per byte (exact for ASCII names). */
  function Text(name: seq<byte>): string {
    seq(|name|, i requires 0 <= i < |name| => name[i] as int as char)
  }

  /** The printed line of one symbol. */
  function Line(address: int, section: int, name: seq<byte>): string {
    Hex32(address) + " " + Hex32(section) + " " + Text(name)
  }

  function Classify(e: ExportEntry): Step {
    if e.section in SectionsToIgnore then Skip
    else if e.section !in SectionToAddress then Invalid(e.section)
    else Emit(Line(SectionToAddress[e.section] + e.symOffset, e.section, e.name))
  }

  /** The message printed for an unknown section, instead of any line. */
  function InvalidMessage(section: int): string {
    "Invalid section index: " + IntToString(section)
  }

  /** What the walk does with entry `i`, or the exception reading it raises. */
  function StepAt(data: seq<byte>, h: RsoHeader, i: nat): Result<Step> {
    var e :- ReadEntry(data, h, i);
    Ok(Classify(e))
  }

  /** What the walk does with each entry of the table of `data`. */
  function Steps(data: seq<byte>, h: RsoHeader): nat -> Result<Step> {
    (k: nat) => StepAt(data, h, k)
  }

  /** The walk over entries `i` up to `count`, with the lines collected so
      far, where `steps(k)` is what entry `k` calls for. */
  function Walk(steps: nat -> Result<Step>, count: nat, i: nat, lines: seq<string>): Result<seq<string>>
    decreases count - i
  {
    if i >= count then Ok(SortLines(lines))
    else
      var step :- steps(i);
      match step
      case Skip => Walk(steps, count, i + 1, lines)
      case Invalid(s) => Ok([InvalidMessage(s)])
      case Emit(l) => Walk(steps, count, i + 1, lines + [l])
  }

  /** One step of the walk: an entry that does not read ends it with that
      exception, an ignored section moves on, an unknown one ends it with the
      message, and a known one adds its line. */
  lemma WalkStep(steps: nat -> Result<Step>, count: nat, i: nat, lines: seq<string>)
    requires i < count
    ensures steps(i).Err? ==> Walk(steps, count, i, lines) == Err(steps(i).failure)
    ensures steps(i) == Ok(Skip) ==> Walk(steps, count, i, lines) == Walk(steps, count, i + 1, lines)
    ensures steps(i).Ok? && steps(i).value.Emit? ==>
              Walk(steps, count, i, lines) == Walk(steps, count, i + 1, lines + [steps(i).value.line])
    ensures steps(i).Ok? && steps(i).value.Invalid? ==>
              Walk(steps, count, i, lines) == Ok([InvalidMessage(steps(i).value.section)])
  {
  }

  /** What `main` prints for the file `data`, or the exception it raises. */
  function Exports(data: seq<byte>): Result<seq<string>> {
    var h :- ReadHeader(data);
    Walk(Steps(data, h), h.count, 0, [])
  }

  /** `main` on the bytes of the file. */
  method ListExports(data: seq<byte>) returns (output: Result<seq<string>>)
    ensures output == Exports(data)
  {
    var tableOffset :- GetU32(data, 0x40);
    var size :- GetU32(data, 0x44);
    var count := size / 0x10;
    var namesOffset :- GetU32(data, 0x48);
    ghost var h := RsoHeader(tableOffset, count, namesOffset);
    var lines := [];
    for i := 0 to count
      invariant Walk(Steps(data, h), count, i, lines) == Exports(data)
    {
      WalkStep(Steps(data, h), count, i, lines);
      var step :- ReadStep(data, tableOffset, namesOffset, i, h);
      assert Steps(data, h)(i) == Ok(step);
      if step.Invalid? {
        return Ok([InvalidMessage(step.section)]);
      }
      if step.Emit? {
        lines := lines + [step.line];
      }
    }
    return Ok(SortLines(lines));
  }

  /** The body of the loop in `main` for entry `i`: read its three words and
      its name, then skip it, reject its section, or format its line. */
  method ReadStep(data: seq<byte>, tableOffset: nat, namesOffset: nat, i: nat, ghost h: RsoHeader)
    returns (step: Result<Step>)
    requires h.tableOffset == tableOffset && h.namesOffset == namesOffset
    ensures step == StepAt(data, h, i)
  {
    var at := tableOffset + i * 0x10;
    var nameOffset :- GetU32(data, at);
    var symOffset :- GetU32(data, at + 4);
    var section :- GetU32(data, at + 8);
    var name :- ReadNtString(data, namesOffset + nameOffset);
    ghost var e := ExportEntry(name, symOffset, section);
    assert ReadEntry(data, h, i) == Ok(e);
    if section in SectionsToIgnore {
      assert Classify(e) == Skip;
      return Ok(Skip);
    }
    if section !in SectionToAddress {
      assert Classify(e) == Invalid(section);
      return Ok(Invalid(section));
    }
    var address := SectionToAddress[section] + symOffset;
    EmitOf(e, SectionToAddress[section]);
    return Ok(Emit(Line(address, section, name)));
  }

  /** A known section's entry is emitted at its base plus the symbol offset. */
  lemma EmitOf(e: ExportEntry, base: int)
    requires e.section !in SectionsToIgnore && e.section in SectionToAddress
    requires base == SectionToAddress[e.section]
    ensures Classify(e) == Emit(Line(base + e.symOffset, e.section, e.name))
  {
  }

  // ---------------------------------------------------------------------------
  // Sorting the lines

  /** Python's string order: code point by code point, a prefix first. */
  predicate LexLe(a: string, b: string)
    decreases |a|
  {
    if a == [] then true
    else if b == [] then false
    else if a[0] != b[0] then a[0] < b[0]
    else LexLe(a[1..], b[1..])
  }

  lemma {:induction false} LexTotal(a: string, b: string)
    ensures LexLe(a, b) || LexLe(b, a)
    decreases |a|
  {
    if a != [] && b != [] && a[0] == b[0] {
      LexTotal(a[1..], b[1..]);
    }
  }

  lemma {:induction false} LexTrans(a: string, b: string, c: string)
    requires LexLe(a, b) && LexLe(b, c)
    ensures LexLe(a, c)
    decreases |a|
  {
    if a != [] && b != [] && c != [] && a[0] == b[0] && b[0] == c[0] {
      LexTrans(a[1..], b[1..], c[1..]);
    }
  }

  predicate SortedLines(s: seq<string>) {
    forall i, j :: 0 <= i < j < |s| ==> LexLe(s[i], s[j])
  }

  /** `x` placed before the first line it does not follow. */
  function InsertLine(s: seq<string>, x: string): seq<string>
    decreases |s|
  {
    if s == [] || LexLe(x, s[0]) then [x] + s else [s[0]] + InsertLine(s[1..], x)
  }

  /** Inserting into sorted lines keeps them sorted and adds exactly `x`. */
  lemma {:induction false} InsertLineSorted(s: seq<string>, x: string)
    requires SortedLines(s)
    ensures var r := InsertLine(s, x);
            && SortedLines(r) && multiset(r) == multiset(s) + multiset{x}
            && forall y :: y in r <==> y in s || y == x
    decreases |s|
  {
    if s == [] || LexLe(x, s[0]) {
      forall j | 0 <= j < |s| ensures LexLe(x, s[j]) {
        if j > 0 {
          LexTrans(x, s[0], s[j]);
        }
      }
    } else {
      LexTotal(x, s[0]);
      InsertLineSorted(s[1..], x);
      var tail := InsertLine(s[1..], x);
      forall j | 0 <= j < |tail| ensures LexLe(s[0], tail[j]) {
        assert tail[j] in tail;
      }
      assert s == [s[0]] + s[1..];
    }
  }

  /** `sorted(lines)`, by insertion. */
  function SortLines(s: seq<string>): seq<string>
    decreases |s|
  {
    if s == [] then [] else InsertLine(SortLines(s[1..]), s[0])
  }

  /** The sorted lines are ordered, and they are the same lines with the same
      multiplicity. */
  lemma {:induction false} SortLinesSorted(s: seq<string>)
    ensures SortedLines(SortLines(s)) && multiset(SortLines(s)) == multiset(s)
    decreases |s|
  {
    if s != [] {
      SortLinesSorted(s[1..]);
      InsertLineSorted(SortLines(s[1..]), s[0]);
      assert s == [s[0]] + s[1..];
    }
  }

  // ---------------------------------------------------------------------------
  // What the walk prints

  /** Entries `i` up to `j` all read and none has an unknown section. */
  predicate Readable(steps: nat -> Result<Step>, i: nat, j: nat)
    decreases j - i
  {
    i >= j || (steps(i).Ok? && !steps(i).value.Invalid? && Readable(steps, i + 1, j))
  }

  /** The lines of entries `i` up to `j`, in table order, leaving out the
      ignored section. */
  function Kept(steps: nat -> Result<Step>, i: nat, j: nat): seq<string>
    requires Readable(steps, i, j)
    decreases j - i
  {
    if i >= j then []
    else match steps(i).value
      case Emit(l) => [l] + Kept(steps, i + 1, j)
      case Skip => Kept(steps, i + 1, j)
      case Invalid(_) => []
  }

  lemma {:induction false} WalkReadable(steps: nat -> Result<Step>, count: nat, i: nat, lines: seq<string>)
    requires i <= count && Readable(steps, i, count)
    ensures Walk(steps, count, i, lines) == Ok(SortLines(lines + Kept(steps, i, count)))
    decreases count - i
  {
    if i < count {
      assert Readable(steps, i + 1, count);
      WalkStep(steps, count, i, lines);
      match steps(i).value
      case Emit(l) =>
        WalkReadable(steps, count, i + 1, lines + [l]);
        assert lines + [l] + Kept(steps, i + 1, count) == lines + Kept(steps, i, count);
      case Skip =>
        WalkReadable(steps, count, i + 1, lines);
    } else {
      assert lines + [] == lines;
    }
  }

  lemma {:induction false} WalkStops(steps: nat -> Result<Step>, count: nat, i: nat, j: nat, lines: seq<string>)
    requires i <= j < count && Readable(steps, i, j)
    requires steps(j).Err? || steps(j).value.Invalid?
    ensures steps(j).Err? ==> Walk(steps, count, i, lines) == Err(steps(j).failure)
    ensures steps(j).Ok? ==> Walk(steps, count, i, lines) == Ok([InvalidMessage(steps(j).value.section)])
    decreases j - i
  {
    WalkStep(steps, count, i, lines);
    if i < j {
      match steps(i).value
      case Emit(l) =>
        WalkStops(steps, count, i + 1, j, lines + [l]);
      case Skip =>
        WalkStops(steps, count, i + 1, j, lines);
    }
  }

  /** When every entry reads and has a known or ignored section, the output
      is exactly the lines of the non-ignored entries, sorted. */
  lemma ExportsListed(data: seq<byte>)
    requires ReadHeader(data).Ok?
    requires Readable(Steps(data, ReadHeader(data).value), 0, ReadHeader(data).value.count)
    ensures var h := ReadHeader(data).value;
            var out := Exports(data);
            && out.Ok? && SortedLines(out.value)
            && multiset(out.value) == multiset(Kept(Steps(data, h), 0, h.count))
  {
    var h := ReadHeader(data).value;
    WalkReadable(Steps(data, h), h.count, 0, []);
    SortLinesSorted(Kept(Steps(data, h), 0, h.count));
    assert [] + Kept(Steps(data, h), 0, h.count) == Kept(Steps(data, h), 0, h.count);
  }

  /** The first entry with an unknown section stops the walk: only the
      message is printed, none of the lines collected before it.  An entry
      that cannot be read stops it with the exception instead, even when its
      section is ignored, because the name is read first. */
  lemma ExportsStop(data: seq<byte>, j: nat)
    requires ReadHeader(data).Ok? && j < ReadHeader(data).value.count
    requires Readable(Steps(data, ReadHeader(data).value), 0, j)
    ensures var h := ReadHeader(data).value;
            && (ReadEntry(data, h, j).Err? ==> Exports(data) == Err(ReadEntry(data, h, j).failure))
            && (ReadEntry(data, h, j).Ok? && ReadEntry(data, h, j).value.section !in SectionsToIgnore
                && ReadEntry(data, h, j).value.section !in SectionToAddress
                ==> Exports(data) == Ok([InvalidMessage(ReadEntry(data, h, j).value.section)]))
  {
    var h := ReadHeader(data).value;
    assert Steps(data, h)(j) == StepAt(data, h, j);
    if StepAt(data, h, j).Err? || StepAt(data, h, j).value.Invalid? {
      WalkStops(Steps(data, h), h.count, 0, j, []);
    }
  }

  /** The section cases in numbers: 65521 is skipped, sections 1, 2, 5, 6,
      7, 8, 9 and 11 give a line at the section's base address plus the
      symbol's offset, and every other section is invalid. */
  lemma ClassifyCases(e: ExportEntry)
    ensures Classify(e) == Skip <==> e.section == 65521
    ensures Classify(e).Invalid? <==> e.section !in {1, 2, 5, 6, 7, 8, 9, 11, 65521}
    ensures Classify(e).Emit? ==>
              && e.section in {1, 2, 5, 6, 7, 8, 9, 11}
              && Classify(e).line == Line(SectionToAddress[e.section] + e.symOffset, e.section, e.name)
    ensures e.section in {7, 8} ==> Classify(e) == Emit(Line(0x805A7F80 + e.symOffset, e.section, e.name))
  {
  }

  /** A line starts with the address as uppercase hexadecimal of `w` digits
      (eight below 2^32, more above: a section base plus a 32-bit offset can
      reach nine), then the section as eight digits, then the name. */
  lemma LineLayout(address: int, section: int, name: seq<byte>)
    requires 0 <= address && 0 <= section < 0x1_0000_0000
    ensures var l := Line(address, section, name);
            var w := |Hex32(address)|;
            && w >= 8 && (w == 8 <==> address < 0x1_0000_0000)
            && |l| == w + 10 + |name|
            && l[w] == ' ' && l[w + 9] == ' '
            && l[..w] == Hex32(address) && l[w + 1..w + 9] == Hex32(section)
            && l[w + 10..] == Text(name)
  {
    AddressWidth(address);
    AddressWidth(section);
    FieldsLayout(Hex32(address), Hex32(section), Text(name));
  }

  /** Eight digits exactly when the value fits in 32 bits. */
  lemma AddressWidth(n: int)
    requires 0 <= n
    ensures |Hex32(n)| >= 8 && (|Hex32(n)| == 8 <==> n < 0x1_0000_0000)
  {
    Hex32Laws(n);
    UpperHexBound(Hex32(n));
    assert Pow16(8) == 0x1_0000_0000;
  }

  lemma FieldsLayout(a: string, b: string, t: string)
    requires |b| == 8
    ensures var l := a + " " + b + " " + t;
            var w := |a|;
            && |l| == w + 10 + |t| && l[w] == ' ' && l[w + 9] == ' '
            && l[..w] == a && l[w + 1..w + 9] == b && l[w + 10..] == t
  {
    var l := a + " " + b + " " + t;
    assert l == a + (" " + (b + (" " + t)));
  }

}
