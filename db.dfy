/** The symbol table of `Tools/db.py`: one record per function or data symbol,
    keyed by address and kept in insertion order (an `OrderedDict`), together
    with the comma-separated line format the table is loaded from and saved
    to.  Opening and writing the file itself is not modelled: loading takes
    the file's lines, saving returns them. */
module SymbolDatabase {
  import opened Failures
  import opened PyStr
  import opened Util
  import opened Demangler

  /** A record of the table (`SymbolInfo`).  Every record the table can hold
      has its text fields set: loading fills them from the line and
      `add_function` sets them to `""`. */
  datatype SymbolInfo = SymbolInfo(
    size: int,
    matches: bool,     // marked as decompiled
    symType: string,   // "F" for a function
    library: string,
    obj: string,
    symbol: string)    // the mangled name

  /** The record `add_function` inserts. */
  function NewFunction(size: int): SymbolInfo {
    SymbolInfo(size, false, "F", "", "", "")
  }

  // ---------------------------------------------------------------------------
  // Escaping commas inside fields

  /** The HTML entity that stands for a comma inside a field. */
  const CommaEntity := "&#44;"

  /** What `fix_fields_write` does to one field. */
  function Escape(field: string): string {
    Replace(field, ",", CommaEntity)
  }

  /** What `fix_fields_read` does to one field. */
  function Unescape(field: string): string {
    Replace(field, CommaEntity, ",")
  }

  function EscapeAll(fields: seq<string>): seq<string> {
    seq(|fields|, i requires 0 <= i < |fields| => Escape(fields[i]))
  }

  function UnescapeAll(fields: seq<string>): seq<string> {
    seq(|fields|, i requires 0 <= i < |fields| => Unescape(fields[i]))
  }

  /** `fix_fields_write(fields)`: every field, in place. */
  method FixFieldsWrite(fields: array<string>)
    modifies fields
    ensures fields[..] == EscapeAll(old(fields[..]))
  {
    for i := 0 to fields.Length
      invariant forall k :: 0 <= k < i ==> fields[k] == Escape(old(fields[k]))
      invariant forall k :: i <= k < fields.Length ==> fields[k] == old(fields[k])
    {
      fields[i] := Escape(fields[i]);
    }
  }

  /** `fix_fields_read(fields)`: every field, in place. */
  method FixFieldsRead(fields: array<string>)
    modifies fields
    ensures fields[..] == UnescapeAll(old(fields[..]))
  {
    for i := 0 to fields.Length
      invariant forall k :: 0 <= k < i ==> fields[k] == Unescape(old(fields[k]))
      invariant forall k :: i <= k < fields.Length ==> fields[k] == old(fields[k])
    {
      fields[i] := Unescape(fields[i]);
    }
  }

  /** An escaped field holds no comma, so the line splits back into its fields. */
  lemma {:induction false} EscapeNoComma(field: string)
    ensures ',' !in Escape(field)
    decreases |field|
  {
    if |field| > 0 {
      EscapeNoComma(field[1..]);
      if field[0] == ',' {
        assert Escape(field) == CommaEntity + Escape(field[1..]);
      } else {
        assert Escape(field) == [field[0]] + Escape(field[1..]);
      }
    }
  }

  /** Replacing a pattern whose first character does not occur changes nothing. */
  lemma {:induction false} ReplaceAbsent(s: string, pat: string, rep: string)
    requires |pat| > 0 && pat[0] !in s
    ensures Replace(s, pat, rep) == s
    decreases |s|
  {
    if |s| > 0 {
      assert !(pat <= s);
      ReplaceAbsent(s[1..], pat, rep);
      assert [s[0]] + s[1..] == s;
    }
  }

  lemma ContainsTail(s: string, sub: string)
    requires |s| > 0 && Contains(s[1..], sub)
    ensures Contains(s, sub)
  {
    var j :| 0 <= j <= |s[1..]| && Occurs(s[1..], sub, j);
    assert s[j + 1..j + 1 + |sub|] == s[1..][j..j + |sub|];
    assert Occurs(s, sub, j + 1);
  }

  /** Escaping keeps every prefix that has neither a comma nor an ampersand. */
  lemma {:induction false} EscapedPrefix(g: string, p: string)
    requires ',' !in p && '&' !in p
    ensures p <= Escape(g) ==> p <= g
    decreases |g|
  {
    if |p| > 0 && |g| > 0 {
      if g[0] == ',' {
        assert Escape(g) == CommaEntity + Escape(g[1..]);
        assert Escape(g)[0] == '&';
      } else {
        var w := Escape(g[1..]);
        assert Escape(g) == [g[0]] + w;
        if p <= Escape(g) {
          assert p[0] == g[0];
          assert p[1..] <= w;
        }
        EscapedPrefix(g[1..], p[1..]);
      }
    }
  }

  /** Reading back a written field restores it, unless the field already
      spelled the comma entity itself. */
  lemma {:induction false} UnescapeEscape(field: string)
    requires !Contains(field, CommaEntity)
    ensures Unescape(Escape(field)) == field
    decreases |field|
  {
    if |field| > 0 {
      if Contains(field[1..], CommaEntity) {
        ContainsTail(field, CommaEntity);
      }
      UnescapeEscape(field[1..]);
      var w := Escape(field[1..]);
      if field[0] == ',' {
        assert Escape(field) == CommaEntity + w;
        assert (CommaEntity + w)[|CommaEntity|..] == w;
        assert Unescape(CommaEntity + w) == "," + Unescape(w);
      } else {
        assert Escape(field) == [field[0]] + w;
        if CommaEntity <= [field[0]] + w {
          assert "#44;" <= w;
          EscapedPrefix(field[1..], "#44;");
          assert field[..5] == CommaEntity;
          assert Occurs(field, CommaEntity, 0);
          assert false;
        }
        assert ([field[0]] + w)[1..] == w;
        assert Unescape([field[0]] + w) == [field[0]] + Unescape(w);
      }
    }
  }

  /** A field that already held the entity comes back as a comma. */
  lemma EntityNotRestored()
    ensures Unescape(Escape(CommaEntity)) == ","
  {
    ReplaceAbsent(CommaEntity, ",", CommaEntity);
    assert CommaEntity[5..] == "";
  }

  /** Escaping keeps a field free of trailing whitespace. */
  lemma {:induction false} EscapeKeepsEnd(field: string)
    requires field == "" || !IsSpace(field[|field| - 1])
    ensures Escape(field) == "" || !IsSpace(Escape(field)[|Escape(field)| - 1])
    decreases |field|
  {
    if |field| > 0 {
      EscapeKeepsEnd(field[1..]);
      var w := Escape(field[1..]);
      if field[0] == ',' {
        assert Escape(field) == CommaEntity + w;
      } else {
        assert Escape(field) == [field[0]] + w;
      }
    }
  }

  // ---------------------------------------------------------------------------
  // The line format

  /** The first line `save` writes and `load` skips. */
  const HeaderLine := HeaderText + "\n"

  /** The column names, one comma before each after the first. */
  const HeaderText := "Address" + ",Size" + ",Type" + ",Decompiled" + ",Library" + ",Obj" + ",Name"

  /** The seven fields `save` writes for one record, before escaping. */
  function Fields(address: int, info: SymbolInfo): seq<string> {
    [Hex32(address), Hex24(info.size), info.symType, if info.matches then "T" else "F",
     info.library, info.obj, info.symbol]
  }

  /** One line of `save`, without its newline. */
  function FormatLine(address: int, info: SymbolInfo): string {
    Join(EscapeAll(Fields(address, info)), ",")
  }

  /** One line of `load`: strip trailing whitespace, split at commas, unescape,
      demand seven fields (otherwise the program exits), then read the address
      and the size in base 16. */
  function ParseLine(line: string): (r: Result<(int, SymbolInfo)>)
    ensures |Split(RStrip(line), ',')| != 7 ==> r == Err(SystemExit)
  {
    var fields := UnescapeAll(Split(RStrip(line), ','));
    if |fields| != 7 then Err(SystemExit) else ParseRecord(fields)
  }

  /** The seven unescaped fields of a line: address and size in base 16, then
      type, the decompiled mark (`"T"` or anything else), library, object and
      name. */
  function ParseRecord(fields: seq<string>): Result<(int, SymbolInfo)>
    requires |fields| == 7
  {
    var address :- ParseInt(fields[0], 16);
    var size :- ParseInt(fields[1], 16);
    Ok((address, SymbolInfo(size, fields[3] == "T", fields[2], fields[4], fields[5], fields[6])))
  }

  /** Text that stays on one line of the file: reading a file in text mode
      ends a line at every `\n` and every `\r`. */
  predicate OnOneLine(s: string) {
    '\n' !in s && '\r' !in s
  }

  /** A record whose line reads back as itself: no text field spells the
      comma entity or breaks the line, and the name does not end in
      whitespace (`rstrip` would remove it). */
  predicate Storable(info: SymbolInfo) {
    && !Contains(info.symType, CommaEntity)
    && !Contains(info.library, CommaEntity)
    && !Contains(info.obj, CommaEntity)
    && !Contains(info.symbol, CommaEntity)
    && OnOneLine(info.symType) && OnOneLine(info.library) && OnOneLine(info.obj) && OnOneLine(info.symbol)
    && (info.symbol == "" || !IsSpace(info.symbol[|info.symbol| - 1]))
  }

  /** The formatted numbers hold only digits, letters and a sign. */
  lemma NumberField(n: int, r: string)
    requires r == Hex32(n) || r == Hex24(n)
    ensures ',' !in r && '&' !in r && OnOneLine(r)
  {
    Hex32Laws(n);
    Hex24Laws(n);
    assert forall i :: 1 <= i < |r| ==> r[i] == r[1..][i - 1];
    forall i | 0 <= i < |r|
      ensures r[i] != ',' && r[i] != '&' && r[i] != '\n' && r[i] != '\r'
    {
      if n >= 0 {
        assert IsUpperHexDigit(r[i]);
      } else if i > 0 {
        assert IsUpperHexDigit(r[1..][i - 1]);
      }
    }
  }

  /** A field without commas or ampersands is written and read unchanged. */
  lemma PlainField(field: string)
    requires ',' !in field && '&' !in field
    ensures Escape(field) == field && Unescape(field) == field
  {
    ReplaceAbsent(field, ",", CommaEntity);
    ReplaceAbsent(field, CommaEntity, ",");
  }

  lemma {:induction false} JoinSnoc(parts: seq<string>, x: string, sep: string)
    requires |parts| >= 1
    ensures Join(parts + [x], sep) == Join(parts, sep) + sep + x
    decreases |parts|
  {
    if |parts| == 1 {
      assert (parts + [x])[1..] == [x];
    } else {
      assert (parts + [x])[1..] == parts[1..] + [x];
      JoinSnoc(parts[1..], x, sep);
    }
  }

  /** `rstrip` removes the newline and nothing before it. */
  lemma RStripNewline(s: string)
    requires s == "" || !IsSpace(s[|s| - 1])
    ensures RStrip(s + "\n") == s
  {
    assert (s + "\n")[..|s|] == s;
  }

  /** A saved line has seven fields, and no text of the last one is lost. */
  lemma FormatLineFields(address: int, info: SymbolInfo)
    ensures Split(FormatLine(address, info), ',') == EscapeAll(Fields(address, info))
    ensures |Split(FormatLine(address, info), ',')| == 7
  {
    var e := EscapeAll(Fields(address, info));
    forall k | 0 <= k < |e|
      ensures ',' !in e[k]
    {
      EscapeNoComma(Fields(address, info)[k]);
    }
    SplitJoin(e, ',');
  }

  /** The line ends with the escaped name, or with the comma before an empty
      one; either way not with whitespace. */
  lemma FormatLineEnd(address: int, info: SymbolInfo)
    requires info.symbol == "" || !IsSpace(info.symbol[|info.symbol| - 1])
    ensures RStrip(FormatLine(address, info) + "\n") == FormatLine(address, info)
  {
    var e := EscapeAll(Fields(address, info));
    var line := FormatLine(address, info);
    assert e == e[..6] + [e[6]];
    JoinSnoc(e[..6], e[6], ",");
    EscapeKeepsEnd(info.symbol);
    assert line == Join(e[..6], ",") + "," + e[6];
    assert line != "" && !IsSpace(line[|line| - 1]);
    RStripNewline(line);
  }

  /** Unescaping the written fields gives back the record's fields. */
  lemma FieldsRoundTrip(address: int, info: SymbolInfo)
    requires Storable(info)
    ensures UnescapeAll(EscapeAll(Fields(address, info))) == Fields(address, info)
  {
    NumberField(address, Hex32(address));
    NumberField(info.size, Hex24(info.size));
    RoundTripOf(Hex32(address), Hex24(info.size), if info.matches then "T" else "F", info);
  }

  lemma RoundTripOf(a: string, s: string, m: string, info: SymbolInfo)
    requires ',' !in a && '&' !in a && ',' !in s && '&' !in s && ',' !in m && '&' !in m
    requires Storable(info)
    ensures var f := [a, s, info.symType, m, info.library, info.obj, info.symbol];
            UnescapeAll(EscapeAll(f)) == f
  {
    PlainField(a);
    PlainField(s);
    PlainField(m);
    UnescapeEscape(info.symType);
    UnescapeEscape(info.library);
    UnescapeEscape(info.obj);
    UnescapeEscape(info.symbol);
    UnescapeAllEscapeAll([a, s, info.symType, m, info.library, info.obj, info.symbol]);
  }


  lemma UnescapeAllEscapeAll(fields: seq<string>)
    requires forall k :: 0 <= k < |fields| ==> Unescape(Escape(fields[k])) == fields[k]
    ensures UnescapeAll(EscapeAll(fields)) == fields
  {
  }

  /** The record's fields parse back to the record. */
  lemma ParseFields(address: int, info: SymbolInfo)
    ensures ParseRecord(Fields(address, info)) == Ok((address, info))
  {
    Hex32Laws(address);
    Hex24Laws(info.size);
    ParseRecordOf(Hex32(address), Hex24(info.size), address, info);
  }

  lemma ParseRecordOf(a: string, s: string, address: int, info: SymbolInfo)
    requires ParseInt(a, 16) == Ok(address) && ParseInt(s, 16) == Ok(info.size)
    ensures ParseRecord([a, s, info.symType, if info.matches then "T" else "F", info.library, info.obj, info.symbol])
            == Ok((address, info))
  {
    var m := if info.matches then "T" else "F";
    assert (m == "T") == info.matches;
  }

  /** Escaping adds no line break. */
  lemma {:induction false} EscapeOnOneLine(field: string)
    requires OnOneLine(field)
    ensures OnOneLine(Escape(field))
    decreases |field|
  {
    if |field| > 0 {
      assert field[0] in field;
      assert OnOneLine(field[1..]) by {
        forall c | c in field[1..] ensures c in field { }
      }
      EscapeOnOneLine(field[1..]);
      if field[0] == ',' {
        assert Escape(field) == CommaEntity + Escape(field[1..]);
      } else {
        assert Escape(field) == [field[0]] + Escape(field[1..]);
      }
    }
  }

  lemma {:induction false} JoinOnOneLine(parts: seq<string>, sep: string)
    requires OnOneLine(sep)
    requires forall k :: 0 <= k < |parts| ==> OnOneLine(parts[k])
    ensures OnOneLine(Join(parts, sep))
    decreases |parts|
  {
    if |parts| > 1 {
      JoinOnOneLine(parts[1..], sep);
      assert Join(parts, sep) == parts[0] + sep + Join(parts[1..], sep);
    }
  }

  /** The line of a storable record holds no line break, so the newline
      `save` puts after it is the only one and the file reads back in the
      same lines. */
  lemma FormatLineOneLine(address: int, info: SymbolInfo)
    requires Storable(info)
    ensures OnOneLine(FormatLine(address, info))
  {
    var f := Fields(address, info);
    NumberField(address, f[0]);
    NumberField(info.size, f[1]);
    forall k | 0 <= k < |f|
      ensures OnOneLine(EscapeAll(f)[k])
    {
      EscapeOnOneLine(f[k]);
    }
    JoinOnOneLine(EscapeAll(f), ",");
  }

  /** `load` reads back every record `save` writes (with a storable record). */

  lemma ParseFormatLine(address: int, info: SymbolInfo)
    requires Storable(info)
    ensures ParseLine(FormatLine(address, info) + "\n") == Ok((address, info))
  {
    FormatLineEnd(address, info);
    FormatLineFields(address, info);
    FieldsRoundTrip(address, info);
    ParseFields(address, info);
  }

  // ---------------------------------------------------------------------------
  // The table as a value

  /** The contents of the `OrderedDict`: the addresses in insertion order and
      the record stored under each. */
  datatype Table = Table(order: seq<int>, infos: map<int, SymbolInfo>)

  predicate Distinct(s: seq<int>) {
    forall i, j :: 0 <= i < j < |s| ==> s[i] != s[j]
  }

  predicate Increasing(s: seq<int>) {
    forall i, j :: 0 <= i < j < |s| ==> s[i] < s[j]
  }

  /** Each key of the dictionary appears once in the order. */
  ghost predicate WellFormed(t: Table) {
    && Distinct(t.order)
    && (forall i :: 0 <= i < |t.order| ==> t.order[i] in t.infos)
    && (forall a :: a in t.infos <==> a in t.order)
  }

  const Empty := Table([], map[])

  /** `symbols[address] = info`: a new key goes to the end, an existing key
      keeps its place and gets the new record. */
  function Store(t: Table, address: int, info: SymbolInfo): (r: Table)
    ensures WellFormed(t) ==> WellFormed(r)
    ensures r.infos == t.infos[address := info]
    ensures address in t.infos ==> r.order == t.order
    ensures address !in t.infos ==> r.order == t.order + [address]
  {
    Table(if address in t.infos then t.order else t.order + [address], t.infos[address := info])
  }

  /** The lines of `load` after the header, read one after another until one
      fails; the table holds what was read before the failure. */
  function LoadRows(t: Table, rows: seq<string>): (Table, Option<Failure>)
    decreases |rows|
  {
    if rows == [] then (t, None)
    else
      match ParseLine(rows[0])
      case Err(f) => (t, Some(f))
      case Ok(entry) => LoadRows(Store(t, entry.0, entry.1), rows[1..])
  }

  /** `load`: the table is cleared and the first line is skipped. */
  function Loaded(lines: seq<string>): (Table, Option<Failure>) {
    LoadRows(Empty, if lines == [] then [] else lines[1..])
  }

  lemma {:induction false} LoadRowsWellFormed(t: Table, rows: seq<string>)
    requires WellFormed(t)
    ensures WellFormed(LoadRows(t, rows).0)
    decreases |rows|
  {
    if rows != [] && ParseLine(rows[0]).Ok? {
      var entry := ParseLine(rows[0]).value;
      LoadRowsWellFormed(Store(t, entry.0, entry.1), rows[1..]);
    }
  }

  /** The data lines `save` writes, in table order. */
  function Rows(order: seq<int>, infos: map<int, SymbolInfo>): seq<string>
    requires forall a :: a in order ==> a in infos
  {
    seq(|order|, i requires 0 <= i < |order| => FormatLine(order[i], infos[order[i]]) + "\n")
  }

  /** Everything `save` writes. */
  function SaveLines(t: Table): seq<string>
    requires forall a :: a in t.order ==> a in t.infos
  {
    [HeaderLine] + Rows(t.order, t.infos)
  }

  /** The first `k` entries of the table. */
  function Prefix(t: Table, k: nat): Table
    requires k <= |t.order|
  {
    Table(t.order[..k], map a | a in t.infos && a in t.order[..k] :: t.infos[a])
  }

  lemma PrefixAll(t: Table)
    requires WellFormed(t)
    ensures Prefix(t, |t.order|) == t
  {
    assert t.order[..|t.order|] == t.order;
    var m := Prefix(t, |t.order|).infos;
    assert forall a :: a in m <==> a in t.infos;
    assert m == t.infos;
  }

  /** Reading the next entry extends the prefix by that entry. */
  lemma PrefixStore(t: Table, k: nat)
    requires WellFormed(t) && k < |t.order|
    ensures Store(Prefix(t, k), t.order[k], t.infos[t.order[k]]) == Prefix(t, k + 1)
  {
    var a := t.order[k];
    assert a !in t.order[..k];
    assert t.order[..k] + [a] == t.order[..k + 1];
    assert forall b :: b in t.order[..k + 1] <==> b in t.order[..k] || b == a;
  }

  lemma {:induction false} LoadRowsFrom(t: Table, k: nat)
    requires WellFormed(t) && k <= |t.order|
    requires forall a :: a in t.infos ==> Storable(t.infos[a])
    ensures LoadRows(Prefix(t, k), Rows(t.order, t.infos)[k..]) == (t, None)
    decreases |t.order| - k
  {
    var rows := Rows(t.order, t.infos);
    if k == |t.order| {
      assert rows[k..] == [];
      PrefixAll(t);
    } else {
      var a := t.order[k];
      ParseFormatLine(a, t.infos[a]);
      assert rows[k..][0] == rows[k];
      assert rows[k..][1..] == rows[k + 1..];
      PrefixStore(t, k);
      LoadRowsFrom(t, k + 1);
    }
  }

  /** Every line `save` writes ends with its only line break. */
  lemma SavedLinesOneLine(t: Table)
    requires forall a :: a in t.order ==> a in t.infos
    requires forall a :: a in t.infos ==> Storable(t.infos[a])
    ensures forall i :: 0 <= i < |SaveLines(t)| ==>
              var l := SaveLines(t)[i];
              |l| > 0 && l[|l| - 1] == '\n' && OnOneLine(l[..|l| - 1])
  {
    forall i | 0 <= i < |SaveLines(t)|
      ensures var l := SaveLines(t)[i];
              |l| > 0 && l[|l| - 1] == '\n' && OnOneLine(l[..|l| - 1])
    {
      if i == 0 {
        assert SaveLines(t)[0] == HeaderLine;
        HeaderOneLine();
      } else {
        SavedRowOneLine(t, i - 1);
      }
    }
  }

  lemma HeaderOneLine()
    ensures |HeaderLine| > 0 && HeaderLine[|HeaderLine| - 1] == '\n'
    ensures OnOneLine(HeaderLine[..|HeaderLine| - 1])
  {
    assert HeaderLine[..|HeaderLine| - 1] == HeaderText;
    assert OnOneLine("Address") && OnOneLine(",Size") && OnOneLine(",Type") && OnOneLine(",Decompiled");
    assert OnOneLine(",Library") && OnOneLine(",Obj") && OnOneLine(",Name");
  }

  lemma SavedRowOneLine(
t: Table, k: nat)
    requires forall a :: a in t.order ==> a in t.infos
    requires forall a :: a in t.infos ==> Storable(t.infos[a])
    requires k < |t.order|
    ensures var l := SaveLines(t)[k + 1];
            |l| > 0 && l[|l| - 1] == '\n' && OnOneLine(l[..|l| - 1])
  {
    var a := t.order[k];
    assert a in t.infos;
    FormatLineOneLine(a, t.infos[a]);
    var f := FormatLine(a, t.infos[a]);
    assert SaveLines(t)[k + 1] == Rows(t.order, t.infos)[k] == f + "\n";
    assert (f + "\n")[..|f|] == f;
  }


  /** Saving and loading again gives back the same table, order included. */
  lemma SaveThenLoad(t: Table)
    requires WellFormed(t)
    requires forall a :: a in t.infos ==> Storable(t.infos[a])
    ensures Loaded(SaveLines(t)) == (t, None)
  {
    LoadRowsFrom(t, 0);
    assert Prefix(t, 0) == Empty;
    assert SaveLines(t)[1..] == Rows(t.order, t.infos)[0..];
  }

  /** The entries a filter keeps, in table order: what the generators
      `get_functions_marked_as_decompiled` and `search_functions` yield. */
  function Select(order: seq<int>, infos: map<int, SymbolInfo>, keep: SymbolInfo -> bool): seq<int> {
    if order == [] then []
    else (if order[0] in infos && keep(infos[order[0]]) then [order[0]] else [])
         + Select(order[1..], infos, keep)
  }

  lemma {:induction false} SelectAppend(a: seq<int>, b: seq<int>, infos: map<int, SymbolInfo>, keep: SymbolInfo -> bool)
    ensures Select(a + b, infos, keep) == Select(a, infos, keep) + Select(b, infos, keep)
    decreases |a|
  {
    if a != [] {
      assert (a + b)[1..] == a[1..] + b;
      SelectAppend(a[1..], b, infos, keep);
    } else {
      assert a + b == b;
    }
  }

  /** The filter keeps exactly the entries whose record passes. */
  lemma {:induction false} SelectMembers(order: seq<int>, infos: map<int, SymbolInfo>, keep: SymbolInfo -> bool)
    ensures forall a :: a in Select(order, infos, keep) <==> a in order && a in infos && keep(infos[a])
    decreases |order|
  {
    if order != [] {
      SelectMembers(order[1..], infos, keep);
      assert forall a :: a in order <==> a == order[0] || a in order[1..];
    }
  }

  predicate IsMarked(info: SymbolInfo) {
    info.matches
  }

  /** The test `search_functions` applies to one record, with `pattern`
      already lower-cased: a non-empty name that demangles without raising
      anything and whose lower-cased text contains the pattern. */
  predicate Found(pattern: string, info: SymbolInfo) {
    && info.symbol != ""
    && DemangleSymbol(info.symbol).Ok?
    && Contains(Lower(DemangleSymbol(info.symbol).value), pattern)
  }

  function SearchFilter(pattern: string): SymbolInfo -> bool {
    info => Found(pattern, info)
  }

  /** With the empty pattern the search yields every named entry whose name
      demangles. */
  lemma SearchEmptyPattern(info: SymbolInfo)
    ensures Found(Lower(""), info) <==> info.symbol != "" && DemangleSymbol(info.symbol).Ok?
  {
    assert Lower("") == "";
    if info.symbol != "" && DemangleSymbol(info.symbol).Ok? {
      assert Occurs(Lower(DemangleSymbol(info.symbol).value), "", 0);
    }
  }

  /** The search ignores the case of the pattern. */
  lemma SearchIgnoresCase(pattern: string)
    ensures Lower(Upper(pattern)) == Lower(pattern)
    ensures forall info :: Found(Lower(Upper(pattern)), info) == Found(Lower(pattern), info)
  {
    assert forall i :: 0 <= i < |pattern| ==> LowerChar(UpperChar(pattern[i])) == LowerChar(pattern[i]);
  }

  /** Insert `x` into an ascending sequence. */
  function InsertSorted(s: seq<int>, x: int): (r: seq<int>)
    requires Increasing(s) && x !in s
    ensures Increasing(r) && |r| == |s| + 1
    ensures forall y :: y in r <==> y in s || y == x
    decreases |s|
  {
    if s == [] || x < s[0] then [x] + s
    else
      var tail := InsertSorted(s[1..], x);
      assert forall j :: 0 <= j < |tail| ==> s[0] < tail[j] by {
        assert forall y :: y in s[1..] ==> s[0] < y;
        assert forall j :: 0 <= j < |tail| ==> tail[j] in tail;
      }
      assert s == [s[0]] + s[1..];
      [s[0]] + tail
  }

  /** `sorted` on the keys of the table: ascending, same keys. */
  function SortAddresses(s: seq<int>): (r: seq<int>)
    requires Distinct(s)
    ensures Increasing(r) && |r| == |s|
    ensures forall y :: y in r <==> y in s
    decreases |s|
  {
    if s == [] then []
    else
      assert s[0] !in s[1..];
      InsertSorted(SortAddresses(s[1..]), s[0])
  }

  /** An ascending sequence is determined by its elements. */
  lemma {:induction false} IncreasingUnique(a: seq<int>, b: seq<int>)
    requires Increasing(a) && Increasing(b)
    requires forall y :: y in a <==> y in b
    ensures a == b
    decreases |a|
  {
    assert a != [] ==> a[0] in a && a[0] in b;
    assert b != [] ==> b[0] in b && b[0] in a;
    if a != [] && b != [] {
      assert a[0] == b[0];
      forall y
        ensures y in a[1..] <==> y in b[1..]
      {
        if y in a[1..] {
          assert y != a[0] && y in b;
        }
        if y in b[1..] {
          assert y != b[0] && y in a;
        }
      }
      IncreasingUnique(a[1..], b[1..]);
    }
  }

  /** Sorting an ascending table changes nothing, so sorting twice is the
      same as sorting once. */
  lemma SortIdempotent(s: seq<int>)
    requires Increasing(s)
    ensures Distinct(s) && SortAddresses(s) == s
  {
    IncreasingUnique(SortAddresses(s), s);
  }

  // ---------------------------------------------------------------------------
  // The table itself

  /** `SymbolDB`: the path of the file it is loaded from is not modelled. */
  class SymbolDB {
    var order: seq<int>
    var infos: map<int, SymbolInfo>

    function Model(): Table
      reads this
    {
      Table(order, infos)
    }

    ghost predicate Valid()
      reads this
    {
      WellFormed(Model())
    }

    constructor ()
      ensures Valid() && Model() == Empty
    {
      order, infos := [], map[];
    }

    /** `load()` on the lines of the file. */
    method Load(lines: seq<string>) returns (failure: Option<Failure>)
      modifies this
      ensures Valid()
      ensures (Model(), failure) == Loaded(lines)
    {
      order, infos := [], map[];
      var rows := if lines == [] then [] else lines[1..];
      var i := 0;
      while i < |rows|
        invariant 0 <= i <= |rows|
        invariant Valid()
        invariant LoadRows(Model(), rows[i..]) == Loaded(lines)
      {
        assert rows[i..][0] == rows[i] && rows[i..][1..] == rows[i + 1..];
        var row := ReadLine(rows[i]);
        if row.Err? {
          return Some(row.failure);
        }
        var (address, info) := row.value;
        if address !in infos {
          order := order + [address];
        }
        infos := infos[address := info];
        i := i + 1;
      }
      return None;
    }

    /** One line of the file inside `load()`: split at commas, unescape,
        check there are seven fields and read the two numbers. */
    static method ReadLine(line: string) returns (row: Result<(int, SymbolInfo)>)
      ensures row == ParseLine(line)
    {
      var parts := Split(RStrip(line), ',');
      var fields := new string[|parts|](k requires 0 <= k < |parts| => parts[k]);
      assert fields[..] == parts;
      FixFieldsRead(fields);
      if fields.Length != 7 {
        return Err(SystemExit);
      }
      var address := ParseInt(fields[0], 16);
      if address.Err? {
        return Err(address.failure);
      }
      var size := ParseInt(fields[1], 16);
      if size.Err? {
        return Err(size.failure);
      }
      var info := SymbolInfo(size.value, fields[3] == "T", fields[2], fields[4], fields[5], fields[6]);
      return Ok((address.value, info));
    }

    /** `save()`: sorts the table, then gives the header and one line per
      entry. */
    method Save() returns (lines: seq<string>)
      requires Valid()
      modifies this
      ensures Valid() && Increasing(order)
      ensures infos == old(infos) && order == SortAddresses(old(order))
      ensures lines == SaveLines(Model())
    {
      Sort();
      var rows := WriteRows(order, infos);
      lines := [HeaderLine] + rows;
    }

    /** The loop of `save` over the entries in table order. */
    static method WriteRows(entries: seq<int>, table: map<int, SymbolInfo>) returns (rows: seq<string>)
      requires forall a :: a in entries ==> a in table
      ensures rows == Rows(entries, table)
    {
      rows := [];
      for i := 0 to |entries|
        invariant |rows| == i
        invariant forall k :: 0 <= k < i ==> rows[k] == FormatLine(entries[k], table[entries[k]]) + "\n"
      {
        var line := WriteLine(entries[i], table[entries[i]]);
        rows := rows + [line + "\n"];
      }
    }

    /** The body of `save`'s loop: the fields of one entry, escaped in place
      and joined. */
    static method WriteLine(address: int, info: SymbolInfo) returns (line: string)
      ensures line == FormatLine(address, info)
    {
      var f := Fields(address, info);
      var fields := new string[|f|](k requires 0 <= k < |f| => f[k]);
      assert fields[..] == f;
      FixFieldsWrite(fields);
      line := Join(fields[..], ",");
    }

    /** `sort()`: the entries in ascending address order, records untouched. */
    method Sort()
      requires Valid()
      modifies this
      ensures Valid() && Increasing(order)
      ensures infos == old(infos) && order == SortAddresses(old(order))
    {
      order := SortAddresses(order);
    }

    /** `does_address_exist(address)`. */
    method DoesAddressExist(address: int) returns (b: bool)
      requires Valid()
      ensures b <==> address in order
    {
      b := address in infos;
    }

    /** `does_symbol_exist(symbol)`: a scan over the records. */
    method DoesSymbolExist(symbol: string) returns (b: bool)
      requires Valid()
      ensures b <==> exists a :: a in infos && infos[a].symbol == symbol
    {
      for i := 0 to |order|
        invariant forall k :: 0 <= k < i ==> infos[order[k]].symbol != symbol
      {
        if infos[order[i]].symbol == symbol {
          ghost var w := order[i];
          assert w in infos && infos[w].symbol == symbol;
          return true;
        }
      }
      return false;
    }

    /** `get_address_from_symbol(symbol)`: the first address in table order
      whose record has that name. */
    method GetAddressFromSymbol(symbol: string) returns (r: Option<int>)
      requires Valid()
      ensures r.None? <==> forall a :: a in infos ==> infos[a].symbol != symbol
      ensures r.Some? ==>
        exists i :: (0 <= i < |order| && order[i] == r.value && infos[order[i]].symbol == symbol
                     && forall j :: 0 <= j < i ==> infos[order[j]].symbol != symbol)
    {
      for i := 0 to |order|
        invariant forall k :: 0 <= k < i ==> infos[order[k]].symbol != symbol
      {
        if infos[order[i]].symbol == symbol {
          assert !forall a :: a in infos ==> infos[a].symbol != symbol by {
            assert order[i] in infos && infos[order[i]].symbol == symbol;
          }
          return Some(order[i]);
        }
      }
      return None;
    }

    /** `get_size(address)`: 0 for an absent address. */
    method GetSize(address: int) returns (size: int)
      ensures address in infos ==> size == infos[address].size
      ensures address !in infos ==> size == 0
    {
      size := if address in infos then infos[address].size else 0;
    }

    /** `get_symbol(address)`. */
    method GetSymbol(address: int) returns (symbol: Option<string>)
      ensures symbol.Some? <==> address in infos
      ensures symbol.Some? ==> symbol.value == infos[address].symbol
    {
      symbol := if address in infos then Some(infos[address].symbol) else None;
    }

    /** `get_demangled_symbol(address)`: `""` for an empty name, `None` for an
      absent address or a name the demangler rejects; any other exception
      of the demangler propagates. */
    method GetDemangledSymbol(address: int) returns (r: Result<Option<string>>)
      ensures address !in infos ==> r == Ok(None)
      ensures address in infos && infos[address].symbol == "" ==> r == Ok(Some(""))
      ensures address in infos && infos[address].symbol != "" ==>
                match DemangleSymbol(infos[address].symbol)
                case Ok(text) => r == Ok(Some(text))
                case Err(DemanglerException(_)) => r == Ok(None)
                case Err(other) => r == Err(other)
    {
      if address !in infos {
        return Ok(None);
      }
      var mangled := infos[address].symbol;
      if mangled == "" {
        return Ok(Some(""));
      }
      var d := DemangleSymbol(mangled);
      match d
      case Ok(text) => r := Ok(Some(text));
      case Err(DemanglerException(_)) => r := Ok(None);
      case Err(other) => r := Err(other);
    }

    /** `get_sym_type(address)`. */
    method GetSymType(address: int) returns (t: Option<string>)
      ensures t.Some? <==> address in infos
      ensures t.Some? ==> t.value == infos[address].symType
    {
      t := if address in infos then Some(infos[address].symType) else None;
    }

    /** `get_obj(address)`. */
    method GetObj(address: int) returns (obj: Option<string>)
      ensures obj.Some? <==> address in infos
      ensures obj.Some? ==> obj.value == infos[address].obj
    {
      obj := if address in infos then Some(infos[address].obj) else None;
    }

    /** `get_library(address)`: the second of its two definitions is the one
      in effect, and it returns the record's type, not its library. */
    method GetLibrary(address: int) returns (lib: Option<string>)
      ensures lib.Some? <==> address in infos
      ensures lib.Some? ==> lib.value == infos[address].symType
    {
      lib := if address in infos then Some(infos[address].symType) else None;
    }

    /** `is_marked_decompiled(address)`: false for an absent address. */
    method IsMarkedDecompiled(address: int) returns (b: bool)
      ensures b <==> address in infos && infos[address].matches
    {
      b := address in infos && infos[address].matches;
    }

    /** `add_function(address, size)`: the `assert` fails for an address
      already present; otherwise a fresh function record goes to the end. */
    method AddFunction(address: int, size: int) returns (r: Result<()>)
      requires Valid()
      modifies this
      ensures Valid()
      ensures old(address in infos) ==> r == Err(AssertionError) && Model() == old(Model())
      ensures old(address !in infos) ==> r == Ok(()) && order == old(order) + [address]
                                         && infos == old(infos)[address := NewFunction(size)]
    {
      if address in infos {
        return Err(AssertionError);
      }
      order := order + [address];
      infos := infos[address := NewFunction(size)];
      return Ok(());
    }

    /** `set_size(address, size)`: `KeyError` for an absent address. */
    method SetSize(address: int, size: int) returns (r: Result<()>)
      requires Valid()
      modifies this
      ensures Valid() && order == old(order)
      ensures old(address !in infos) ==> r == Err(KeyError) && infos == old(infos)
      ensures old(address in infos) ==>
        (r == Ok(()) && infos == old(infos)[address := old(infos)[address].(size := size)])
    {
      if address !in infos {
        return Err(KeyError);
      }
      infos := infos[address := infos[address].(size := size)];
      return Ok(());
    }

    /** `mark_function_decompiled(address, decompiled)`: `KeyError` for an
      absent address. */
    method MarkFunctionDecompiled(address: int, decompiled: bool) returns (r: Result<()>)
      requires Valid()
      modifies this
      ensures Valid() && order == old(order)
      ensures old(address !in infos) ==> r == Err(KeyError) && infos == old(infos)
      ensures old(address in infos) ==>
        (r == Ok(()) && infos == old(infos)[address := old(infos)[address].(matches := decompiled)])
    {
      if address !in infos {
        return Err(KeyError);
      }
      infos := infos[address := infos[address].(matches := decompiled)];
      return Ok(());
    }

    /** `get_functions_marked_as_decompiled()`: what the generator yields. */
    method GetFunctionsMarkedAsDecompiled() returns (r: seq<int>)
      requires Valid()
      ensures r == Select(order, infos, IsMarked)
      ensures forall a :: a in r <==> a in infos && infos[a].matches
    {
      r := [];
      for i := 0 to |order|
        invariant r == Select(order[..i], infos, IsMarked)
      {
        SelectAppend(order[..i], [order[i]], infos, IsMarked);
        assert order[..i + 1] == order[..i] + [order[i]];
        if infos[order[i]].matches {
          r := r + [order[i]];
        }
      }
      assert order[..|order|] == order;
      SelectMembers(order, infos, IsMarked);
    }

    /** `get_all_functions()`: every address, in table order. */
    method GetAllFunctions() returns (r: seq<int>)
      requires Valid()
      ensures r == order
      ensures forall a :: a in r <==> a in infos
    {
      r := [];
      for i := 0 to |order|
        invariant r == order[..i]
      {
        r := r + [order[i]];
      }
    }

    /** `search_functions(pattern)`: what the generator yields. */
    method SearchFunctions(pattern: string) returns (r: seq<int>)
      requires Valid()
      ensures r == Select(order, infos, SearchFilter(Lower(pattern)))
      ensures forall a :: a in r <==> a in infos && Found(Lower(pattern), infos[a])
    {
      var p := Lower(pattern);
      r := [];
      for i := 0 to |order|
        invariant r == Select(order[..i], infos, SearchFilter(p))
      {
        SelectAppend(order[..i], [order[i]], infos, SearchFilter(p));
        assert order[..i + 1] == order[..i] + [order[i]];
        var mangled := infos[order[i]].symbol;
        if mangled == "" {
          continue;
        }
        var d := DemangleSymbol(mangled);
        if d.Err? {
          continue;
        }
        if Contains(Lower(d.value), p) {
          r := r + [order[i]];
        }
      }
      assert order[..|order|] == order;
      SelectMembers(order, infos, SearchFilter(p));
    }
  }

  /** `get_obj_display_name(obj)`: the object file name, or `"?"` when there
      is none. */
  function ObjDisplayName(obj: Option<string>): (r: string)
    ensures r == "?" <==> obj == None || obj == Some("")
    ensures obj.Some? && obj.value != "" ==> r == obj.value + ".o"
  {
    match obj
    case Some(name) => if name != "" then name + ".o" else "?"
    case None => "?"
  }

  /** `get_lib_display_name(lib)`: the name itself, or `"?"` when there is
      none; never empty. */
  function LibDisplayName(lib: Option<string>): (r: string)
    ensures r != ""
    ensures lib.Some? && lib.value != "" ==> r == lib.value
    ensures lib == None || lib == Some("") ==> r == "?"
  {
    match lib
    case Some(name) => if name != "" then name else "?"
    case None => "?"
  }
}
