# Decompilation tools of Donkey Kong Country Returns, modelled in Dafny

This project models the core of the project's Python tooling:

- the CodeWarrior symbol demangler (`Tools/demangler.py`). It turns a mangled
  C++ symbol such as `__ct__Q214NrvTakeOutStar18TakeOutStarNrvAnimFv` into
  `NrvTakeOutStar::TakeOutStarNrvAnim::TakeOutStarNrvAnim(void)`;
- the symbol database (`Tools/db.py`). It is a table of symbol records keyed
  by address and kept in insertion order. It is loaded from and saved to a
  comma-separated file, and commas inside fields are written as `&#44;`;
- the hexadecimal helpers of `Tools/util.py`;
- the anonymous-data test of `Tools/symbols.py`;
- the export-table listing of `Tools/rso_sym.py`. It reads the export
  symbols of an RSO module and prints one `address section name` line per
  symbol, sorted.

Modules:

- `Failures` (`failures.dfy`) holds `Option` (Python's `None`) and
  `Result`. A `Result` is either a value or the Python exception the code
  would raise. `DemanglerException` is kept apart from the interpreter's own
  errors (`IndexError`, `ValueError`, `AssertionError`, ...) because the
  database catches only that one.
- `PyStr` (`pystr.dfy`) models the Python string built-ins the code relies
  on: `find`, `rfind`, `split`, `join`, `replace`, `rstrip`, `int()`,
  `str()`, `lower` and `upper`.
- `Demangler` (`demangler.dfy`) models the demangler. Each step takes the
  remaining input and returns the rendered text with what it left unread.
  The loops of the original, which rebind `rest` step by step, become
  recursion on that remaining input.
- `DemanglerLaws` (`demangler_laws.dfy`) proves what each kind of node, the
  argument list, the template decoding, `demangle_name` and
  `demangle_symbol` produce, over all inputs.
- `DemanglerExamples` (`demangler_examples.dfy`) proves the fifteen test
  vectors of `run_tests`. Each vector is proved for every class, namespace
  and function name of the same shape, not only for the literal symbol.
- `SymbolDatabase` (`db.dfy`) holds the line format with its round trip.
  The class `SymbolDB` has the table as two fields: `order`, the keys in
  insertion order, and `infos`, the records. Its methods update these in
  place.
- `Util` (`util.dfy`), `Symbols` (`symbols.dfy`) and `RsoSymbols`
  (`rso.dfy`) model the remaining three files.

## Model

| member | source | states |
|---|---|---|
| Demangler.SeparateTemplate | Tools/demangler.py:84-90 | the name and the template suffix put back together give the input; the name has no `<`; the suffix is empty or starts with `<` |
| Demangler.SeparateTemplateUnique | Tools/demangler.py:84-90 | any `<`-free head followed by a tail that is empty or starts with `<` is exactly the split returned, so the split is unique |
| Demangler.TemplatedKeepsName | Tools/demangler.py:84-90 | a name followed by `<…>` is split back into that name |
| DemanglerExamples.IntegralFromChars | Tools/demangler.py:74-82 | the character loop of `is_integral` accepts a string exactly when every character is `-` or an ASCII digit |
| Demangler.SplitTemplateArgs | Tools/demangler.py:98-122 | every argument the level-counting loop produces is one already collected, or no longer than the text it was cut from |
| Demangler.TemplateArgs | Tools/demangler.py:98-122 | every argument of a template suffix `<…>` is strictly shorter than the suffix, which bounds the recursion into the arguments |
| DemanglerLaws.SplitBalanced | Tools/demangler.py:102-122 | an argument whose brackets balance, and whose commas all sit inside them, is copied whole into the current argument: its nested `<`, `>` and `,` never end it |
| DemanglerLaws.TemplateArgsBalanced | Tools/demangler.py:98-122 | a template of balanced arguments splits into exactly those arguments, in order, nested templates kept whole |
| DemanglerLaws.SplitBalancedList | Tools/demangler.py:102-122 | once inside the outer `<`, a comma-separated list of balanced arguments up to `>` adds exactly those arguments to the collected ones |
| DemanglerLaws.NestedTemplateArgs | Tools/demangler.py:98-122 | `<x<y>,z>` splits into the two arguments `x<y>` and `z` |
| Demangler.RenderTemplateArgs | Tools/demangler.py:124-133 | the rendering loop yields one rendered argument per template argument |
| DemanglerLaws.RenderTemplateArgsSpec | Tools/demangler.py:124-133 | rendering succeeds if and only if every argument is integral or decodes as one node with no input left over; then each argument is rendered in place, in order |
| DemanglerLaws.RenderTemplateArgsCons | Tools/demangler.py:126-133 | rendering a list succeeds exactly when the first argument renders and the rest of the list renders; the result is the first rendering followed by the others |
| DemanglerLaws.TemplateArgLeftover | Tools/demangler.py:130-131 | a non-integral argument that decodes as a node but leaves input over fails the `assert` |
| Demangler.TryDemangleTemplates | Tools/demangler.py:92-141 | decoding the template arguments never changes the name before `<` |
| DemanglerLaws.NoTemplate | Tools/demangler.py:93-96 | a name without `<` is returned unchanged |
| DemanglerLaws.TemplatedName | Tools/demangler.py:92-141 | a name with balanced template arguments that all render becomes the name, `<`, the renderings joined by `, `, and `>` |
| DemanglerLaws.TemplatesRendered | Tools/demangler.py:135-141 | when the arguments render, the result is the name, then the renderings joined by `, ` inside angle brackets |
| Demangler.FuncArgs | Tools/demangler.py:143-157 | what is left unread is a suffix of the input; input is left over only after a return type was read |
| DemanglerLaws.FuncArgsReturn | Tools/demangler.py:147-152 | after `_`, exactly one return node is read, no argument is added, and what follows that node is left unread; a failing node fails the list |
| DemanglerLaws.FuncArgsArgument | Tools/demangler.py:154-155 | an argument is the first node, followed by the arguments of the rest, in order; a failure of the rest propagates |
| Demangler.ScanQualifiers | Tools/demangler.py:160-171 | the qualifier loop stops at a character that is neither a prefix nor a suffix code and leaves a suffix of the input; running out of input is an `IndexError` |
| DemanglerLaws.ScanQualifiersCodes | Tools/demangler.py:160-171 | the prefix words and the suffix marks of every code in front of the node are collected, each in the order they occur |
| DemanglerLaws.ScanQualifiersExhausted | Tools/demangler.py:163-164 | qualifier codes with nothing after them raise `IndexError` |
| Demangler.Node | Tools/demangler.py:159-270 | a node, when decoded, always consumes at least one character of the input |
| DemanglerLaws.NodeSteps | Tools/demangler.py:159-270 | a node is its qualifiers, then its body; a lone `const` prefix of a function type moves behind it; failures of the body propagate |
| DemanglerLaws.NodeWithQualifiers | Tools/demangler.py:259-270 | the prefix words come first, joined by spaces and followed by a space; then the node; then the suffix marks; failures of the node pass through |
| DemanglerLaws.ConstFunction | Tools/demangler.py:214-216 | a function type whose only prefix is `const` renders that `const` after the signature instead of before it |
| DemanglerLaws.NodeUnqualified | Tools/demangler.py:159-270 | a node without qualifier codes is its body |
| DemanglerLaws.NodePrimitive | Tools/demangler.py:173-175 | a built-in type code renders its table entry and consumes one character |
| DemanglerLaws.NodeQualified | Tools/demangler.py:176-186 | `Q<d>` reads exactly `d` nodes and joins them with `::`; a failing component fails the node |
| Demangler.QComponents | Tools/demangler.py:182-184 | the component loop yields exactly the requested number of components |
| DemanglerLaws.NodeQualifiedMalformed | Tools/demangler.py:177 | `Q` at the end of the input raises `IndexError`; `Q` followed by a non-digit raises `ValueError` from `int()` |
| DemanglerLaws.NodeArray | Tools/demangler.py:187-200 | `A<count>_<node>` renders the element type followed by `[count]`; the count goes through `int()`, so leading zeros are dropped |
| DemanglerLaws.NodeArrayUnterminated | Tools/demangler.py:191-193 | an array count never followed by `_` raises `IndexError` |
| DemanglerLaws.NodeFunction | Tools/demangler.py:201-212 | `F<args>[_<ret>]` renders `ret ()(args)`, with the return type and its space only when there is one; failures of the list propagate |
| DemanglerLaws.NodeMember | Tools/demangler.py:218-243 | `M<class>[C]F<args>` renders `ret (class::*)(args)`, followed by ` const` exactly when `C` precedes the `F` |
| DemanglerLaws.NodeMemberMalformed | Tools/demangler.py:223-228 | a member pointer whose class is not followed by `F` (after an optional `C`) raises the demangler's own exception, or `IndexError` at the end of the input |
| Demangler.DigitRun | Tools/demangler.py:247-249 | the digit run is the longest prefix of ASCII digits |
| DemanglerLaws.NodeLiteral | Tools/demangler.py:244-255 | a length-prefixed name is the slice of that many characters, cut short by the end of the input, with its templates decoded; the rest follows the slice |
| DemanglerLaws.NodeLiteralName | Tools/demangler.py:244-255 | a name spelled as its decimal length followed by the name decodes to the name with its templates decoded, leaving exactly what follows |
| DemanglerLaws.NodeLiteralTruncated | Tools/demangler.py:252-255 | a length longer than the rest of the input takes all of it and leaves nothing |
| DemanglerLaws.NodeLiteralUnterminated | Tools/demangler.py:247 | a digit run with nothing after it raises `IndexError` |
| DemanglerLaws.NodeInvalid | Tools/demangler.py:256-257 | a character that starts no kind of node raises the demangler's exception, whose message quotes the rest of the input |
| DemanglerLaws.NodeExhausted | Tools/demangler.py:163-164 | qualifier codes with no node after them raise `IndexError` |
| DemanglerLaws.ClassNameLast | Tools/demangler.py:279-286 | the class name is what follows the last `::` of the namespace, without template arguments |
| DemanglerLaws.ClassNameOnly | Tools/demangler.py:281-282 | a namespace without `::` names the class itself, without template arguments |
| DemanglerLaws.DemangleNameCases | Tools/demangler.py:272-293 | special names are replaced from the table; `__ct` becomes the class name and `__dt` becomes `~` and the class name; both raise `AttributeError` without a namespace; any other name is kept; the decoded template suffix is always put back |
| DemanglerExamples.OrdinaryName | Tools/demangler.py:272-293 | a name without templates that is neither special, a constructor nor a destructor is returned as it is |
| DemanglerLaws.ConstructorNamesNotSpecial | Tools/demangler.py:276-278 | `__ct` and `__dt` are not in the special-name table, so the constructor branch is reachable |
| DemanglerExamples.SpecialNamesMarked | Tools/demangler.py:4-44 | every special name starts with `__` |
| Demangler.ScanHeader | Tools/demangler.py:308-317 | the header loop leaves a suffix of the input; it leaves nothing unless it stopped at `F` |
| DemanglerLaws.LastNamespaceKept | Tools/demangler.py:316-317 | each node read before `F` replaces the namespace, so only the last one is kept |
| DemanglerLaws.PassThrough | Tools/demangler.py:295-299 | a symbol whose last `__` is at index 0, or which has none, is returned unchanged |
| DemanglerLaws.PassThroughPlain | Tools/demangler.py:295-299 | a symbol without two adjacent underscores is returned unchanged |
| DemanglerLaws.SplitAtLast | Tools/demangler.py:296-302 | the symbol is split at its last `__`: the name keeps any earlier `__` |
| DemanglerExamples.FunctionSymbol | Tools/demangler.py:319-344 | a function symbol renders the return type and a space, the namespace and `::`, the decoded name, the arguments in parentheses, and ` const` last |
| DemanglerLaws.DataSymbol | Tools/demangler.py:326-344 | without `F` there is no argument list and no ` const`, even when `C` was read: only the namespace, `::` and the name |
| DemanglerLaws.TrailingInput | Tools/demangler.py:322-324 | input left after the return type fails the `assert` |
| DemanglerExamples.QualifiedConstructor | Tools/demangler.py:353 | the test vector for a constructor of a class inside a namespace, for every such pair of names |
| DemanglerExamples.Destructor | Tools/demangler.py:354 | the test vector for a destructor without arguments, for every class name |
| DemanglerExamples.QualifiedConstMethod | Tools/demangler.py:355 | the test vector for a const method of a class inside a namespace taking a pointer |
| DemanglerExamples.ExamplePlain | Tools/demangler.py:356 | the test vector `ARCOpen`: an unmangled symbol is kept |
| DemanglerExamples.NamespacedConstPointers | Tools/demangler.py:357 | the test vector for a function in a namespace taking two pointers to const |
| DemanglerExamples.NamespacedArrayPointer | Tools/demangler.py:358 | the test vector for a pointer to an array and three floats, for every array length |
| DemanglerExamples.FunctorMethod | Tools/demangler.py:359 | the test vector for a const method of a class template instance whose arguments are a pointer and a pointer to a member function |
| DemanglerExamples.TemplateConstructor | Tools/demangler.py:360 | the test vector for the constructor of a class template instance |
| DemanglerExamples.FreeFunction | Tools/demangler.py:361 | the test vector for a function outside any class taking a pointer |
| DemanglerExamples.TemplatedConstMethod | Tools/demangler.py:362 | the test vector for a templated const method with a return type |
| DemanglerExamples.NegativeTemplateArgument | Tools/demangler.py:363 | the test vector for a class template instance with a negative integral argument, for every magnitude |
| DemanglerExamples.TemplatedConstructorInTemplate | Tools/demangler.py:364 | the test vector for a templated constructor of a class template instance with a return type |
| DemanglerExamples.VirtualTable | Tools/demangler.py:366 | the test vector for the virtual table of a class |
| DemanglerExamples.QualifiedVirtualTable | Tools/demangler.py:367 | the test vector for the virtual table of a class inside a namespace |
| DemanglerExamples.StaticMember | Tools/demangler.py:368 | the test vector for a static data member |
| SymbolDatabase.FixFieldsRead | Tools/db.py:8-10 | every field of the list, in place, has the comma entity turned back into a comma |
| SymbolDatabase.FixFieldsWrite | Tools/db.py:12-14 | every field of the list, in place, has each comma written as the entity |
| SymbolDatabase.EscapeNoComma | Tools/db.py:12-14 | an escaped field contains no comma, so a saved line splits back into its fields |
| SymbolDatabase.UnescapeEscape | Tools/db.py:8-14 | reading back a written field restores it, provided it did not already contain the entity text |
| SymbolDatabase.EntityNotRestored | Tools/db.py:8-14 | a field that already contains the entity text comes back as a comma, so the round trip needs that condition |
| SymbolDatabase.EscapeKeepsEnd | Tools/db.py:12-14 | escaping never puts whitespace at the end of a field |
| SymbolDatabase.ParseLine | Tools/db.py:41-58 | a line that does not split into seven fields ends the program |
| SymbolDatabase.SymbolDB.ReadLine | Tools/db.py:41-58 | reading one line in place gives exactly the line's parse |
| SymbolDatabase.FormatLineFields | Tools/db.py:66-78 | a saved line splits into exactly the seven escaped fields of its record |
| SymbolDatabase.ParseFields | Tools/db.py:50-56 | the seven fields of a record parse back to that record and its address |
| SymbolDatabase.ParseFormatLine | Tools/db.py:41-79 | `load` reads back every line `save` writes, for a record no text field of which contains the entity or a line break and whose name does not end in whitespace |
| SymbolDatabase.FormatLineOneLine | Tools/db.py:66-78 | the line `save` formats for such a record holds no `\n` and no `\r` |
| SymbolDatabase.SavedLinesOneLine | Tools/db.py:33-79 | every line `save` writes ends in its newline and holds no other line break, so reading the file in text mode gives back exactly these lines |
| SymbolDatabase.SymbolDB.WriteLine | Tools/db.py:67-78 | the line written for one entry is that entry's formatted line |
| SymbolDatabase.SymbolDB.WriteRows | Tools/db.py:66-79 | the rows are written in table order, one line per entry |
| SymbolDatabase.Store | Tools/db.py:58 | assigning a key keeps the table well formed: a new key goes to the end and an existing key keeps its place with the new record |
| SymbolDatabase.SymbolDB.constructor | Tools/db.py:26-28 | a new database starts with an empty table |
| SymbolDatabase.SymbolDB.Load | Tools/db.py:30-58 | the table is cleared, the first line is skipped, and the rows are read in order until one fails; the table then holds what was read |
| SymbolDatabase.LoadRowsWellFormed | Tools/db.py:36-58 | loading keeps every key once in the order |
| SymbolDatabase.SymbolDB.Save | Tools/db.py:60-79 | the table is sorted first; the output is the header and one formatted line per entry in ascending address order |
| SymbolDatabase.SaveThenLoad | Tools/db.py:30-79 | loading what was saved gives back the same table, order included, with no failure, when no text field contains the entity or a line break and no name ends in whitespace |
| SymbolDatabase.SymbolDB.Sort | Tools/db.py:81-82 | the keys end in ascending order, the records are untouched |
| SymbolDatabase.SortAddresses | Tools/db.py:82 | the sorted keys are ascending and are the same keys |
| SymbolDatabase.SortIdempotent | Tools/db.py:81-82 | sorting a sorted table changes nothing, so sorting twice is sorting once |
| SymbolDatabase.IncreasingUnique | Tools/db.py:82 | an ascending sequence is determined by its elements |
| SymbolDatabase.SymbolDB.DoesAddressExist | Tools/db.py:84-85 | true exactly when the address is in the table |
| SymbolDatabase.SymbolDB.DoesSymbolExist | Tools/db.py:87-92 | true exactly when some record has that name |
| SymbolDatabase.SymbolDB.GetAddressFromSymbol | Tools/db.py:94-99 | the first address in table order whose record has that name, or `None` when no record has it |
| SymbolDatabase.SymbolDB.GetSize | Tools/db.py:101-105 | the record's size, or 0 for an absent address |
| SymbolDatabase.SymbolDB.GetSymbol | Tools/db.py:107-111 | the record's name, or `None` for an absent address |
| SymbolDatabase.SymbolDB.GetDemangledSymbol | Tools/db.py:113-125 | `""` for an empty name; the demangled text; `None` when the demangler raises its own exception or the address is absent; any other exception propagates |
| SymbolDatabase.SymbolDB.GetSymType | Tools/db.py:127-131 | the record's type, or `None` for an absent address |
| SymbolDatabase.SymbolDB.GetObj | Tools/db.py:133-137 | the record's object file, or `None` for an absent address |
| SymbolDatabase.SymbolDB.GetLibrary | Tools/db.py:139-149 | the later definition is the one in effect: it returns the record's type, not its library; `None` for an absent address |
| SymbolDatabase.SymbolDB.IsMarkedDecompiled | Tools/db.py:151-155 | true exactly when the address is present and marked as decompiled |
| SymbolDatabase.SymbolDB.AddFunction | Tools/db.py:157-169 | an address already present fails the `assert` and changes nothing; otherwise a new function record with empty text fields goes to the end |
| SymbolDatabase.SymbolDB.SetSize | Tools/db.py:171-172 | only the size of that record changes; an absent address raises `KeyError` and changes nothing |
| SymbolDatabase.SymbolDB.MarkFunctionDecompiled | Tools/db.py:174-175 | only the mark of that record changes; an absent address raises `KeyError` and changes nothing |
| SymbolDatabase.SymbolDB.GetFunctionsMarkedAsDecompiled | Tools/db.py:177-180 | the addresses of the marked records, in table order, and exactly those |
| SymbolDatabase.SelectMembers | Tools/db.py:177-201 | a filtered walk yields exactly the addresses whose record passes the filter |
| SymbolDatabase.SelectAppend | Tools/db.py:177-201 | a filtered walk over two parts of the order is the walk over the first followed by the walk over the second |
| SymbolDatabase.SymbolDB.GetAllFunctions | Tools/db.py:182-184 | every address, in table order |
| SymbolDatabase.SymbolDB.SearchFunctions | Tools/db.py:186-201 | the addresses, in table order, whose non-empty name demangles without any exception to a text whose lower case contains the lower-cased pattern; exactly those |
| SymbolDatabase.SearchEmptyPattern | Tools/db.py:186-201 | with the empty pattern the search yields every entry whose name is non-empty and demangles |
| SymbolDatabase.SearchIgnoresCase | Tools/db.py:187 | the search gives the same answer for a pattern and its upper-cased form |
| SymbolDatabase.ObjDisplayName | Tools/db.py:203-207 | `"?"` exactly when there is no object name or it is empty; otherwise the name followed by `.o` |
| SymbolDatabase.LibDisplayName | Tools/db.py:209-213 | never empty: the library name itself, or `"?"` when it is absent or empty |
| Util.Hex8Laws | Tools/util.py:6-7 | at least two uppercase digits, exactly two below 0x100, a `-` before a negative value, and `int(_, 16)` reads the number back |
| Util.Hex24Laws | Tools/util.py:9-10 | at least six uppercase digits, exactly six below 0x1000000, a `-` before a negative value, and `int(_, 16)` reads the number back |
| Util.Hex32Laws | Tools/util.py:12-13 | at least eight uppercase digits, exactly eight below 2^32, a `-` before a negative value, and `int(_, 16)` reads the number back |
| Util.IsHexStringChars | Tools/util.py:15-20 | a string is hex exactly when every character is a hexadecimal digit in either case; the empty string is hex |
| Util.IsHexStringIgnoresCase | Tools/util.py:15-20 | lower-casing or upper-casing a string does not change whether it is hex |
| Util.HexIsHexString | Tools/util.py:6-20 | a formatted number passes the hex test exactly when it is not negative |
| Symbols.AnonymousCases | Tools/symbols.py:1-12 | false without a leading `@`; true for a `@STRING@` label; otherwise true exactly when every character after the `@` is a digit |
| Symbols.AnonymousExamples | Tools/symbols.py:1-12 | `@` followed by digits (none included) and every `@STRING@` label are anonymous; `@` followed by a letter is not |
| RsoSymbols.GetU32 | Tools/rso_sym.py:19-21 | a 32-bit unsigned value when four bytes are left at the offset, and the unpacking error otherwise |
| RsoSymbols.GetU32Bytes | Tools/rso_sym.py:19-21 | the word is big-endian: the first byte is the most significant |
| RsoSymbols.ReadNtString | Tools/rso_sym.py:23-29 | the bytes from the offset up to the first NUL, which contain no NUL; `ValueError` exactly when no NUL follows the offset |
| RsoSymbols.ReadHeader | Tools/rso_sym.py:37-39 | the header reads exactly when the file holds the three words at 0x40, 0x44 and 0x48; the table offset is the word at 0x40, the names offset the word at 0x48, and the entry count the word at 0x44 divided by 16 |
| RsoSymbols.EntryLayout | Tools/rso_sym.py:44-50 | an entry reads exactly when its three words are inside the file and its name is terminated, whatever its section |
| RsoSymbols.ClassifyCases | Tools/rso_sym.py:4-17 | section 65521 is skipped; sections 1, 2, 5, 6, 7, 8, 9 and 11 give a line at the section's base plus the offset; every other section is invalid |
| RsoSymbols.EmitOf | Tools/rso_sym.py:52-62 | an entry of a known section gives the line of the section base plus the symbol offset |
| RsoSymbols.WalkStep | Tools/rso_sym.py:43-62 | one step of the loop: an unreadable entry ends the walk with its exception; an ignored section moves on; an unknown one ends the walk with the message; a known one adds its line |
| RsoSymbols.ListExports | Tools/rso_sym.py:31-65 | reading the header and looping over the entries prints what the walk specifies, or raises its exception |
| RsoSymbols.ReadStep | Tools/rso_sym.py:44-62 | the loop body reads the entry and does what its section calls for |
| RsoSymbols.ExportsListed | Tools/rso_sym.py:31-65 | when every entry reads and no section is unknown, the output is exactly the lines of the non-ignored entries, sorted |
| RsoSymbols.ExportsStop | Tools/rso_sym.py:43-57 | the first entry with an unknown section prints only the message, not the lines collected before it; an unreadable entry raises, even in an ignored section, because the name is read first |
| RsoSymbols.SortLinesSorted | Tools/rso_sym.py:64 | `sorted(lines)` is ordered and holds the same lines with the same multiplicities |
| RsoSymbols.InsertLineSorted | Tools/rso_sym.py:64 | inserting into sorted lines keeps them sorted and adds exactly that line |
| RsoSymbols.LexTotal | Tools/rso_sym.py:64 | Python's string order is total |
| RsoSymbols.LexTrans | Tools/rso_sym.py:64 | Python's string order is transitive |
| RsoSymbols.LineLayout | Tools/rso_sym.py:62 | a line is the address in uppercase hex, at least eight digits and exactly eight below 2^32, then a space, the section as eight digits, a space, and the name |


## Left out

- Reading and writing files, the command lines of `db.py` and `rso_sym.py`,
  and printing are not modelled. `load` takes the file's lines and `save`
  returns them. `main` in `rso_sym.py` takes the file's bytes and returns
  the lines it would print (or the one error message, or the exception).
- Splitting the file into lines is not modelled: `load` receives the lines
  already split, each with its newline. `SavedLinesOneLine` shows that the
  lines `save` writes split back into exactly themselves, for records that
  meet the conditions under `ParseFormatLine`.
- `sys.exit()` after an invalid line is the `SystemExit` outcome. The
  message printed before it is not modelled.
- The header line is skipped by `load` without being checked, as in the
  source; `save` writes it from a constant.
- `SymbolInfo()` starts with `None` in its text fields. Every record the
  table can hold has them set, because `load` fills them from the line and
  `add_function` sets them to `""`. The model has no `None` text fields.
- `set_obj`, `set_library` and `set_symbol` are not part of this model. They
  call methods the class does not define, so they cannot run.
- `random_*`, `print_table`, `find_func`, `is_windows`, the assembly helpers
  and `print_help_and_exit` are not part of this model: they are I/O or
  command-line code.
- The `run_tests` loop that prints a pass/fail table is not modelled. Each
  of its vectors is a lemma of `DemanglerExamples`, stated for every name of
  the vector's shape.
- UTF-8 decoding of export names (`bytes.decode`) is not modelled: each byte
  becomes one character, which is exact for ASCII names. A name that is
  not valid UTF-8 raises `UnicodeDecodeError` in the source but not in the
  model.
- Unicode is not modelled: `str.isdigit`, `int()`, `lower()` and `upper()`
  work on ASCII only. Unicode digits and non-ASCII case mappings are out
  of scope. `int()` with `_` between digits is not modelled.
- `Util.Hex8Laws`, `Util.Hex24Laws` and `Util.Hex32Laws`: Python's format
  of a negative number keeps the `-` inside the width (`-0000005` for
  eight digits). The model does the same, but the lemmas state only the
  sign, the digits and the value, not the exact padding of negative
  numbers.
- Integer widths: addresses, sizes and offsets are unbounded, as in Python.
  `get_u32` yields values below 2^32, and their sum is not wrapped.
- `SymbolDatabase.ParseFormatLine`: the round trip is proved only for
  records that meet three conditions. First, no text field may contain the
  entity `&#44;`; `EntityNotRestored` shows that such a field comes back
  changed. Second, the name may not end in whitespace, because `rstrip`
  removes it when the line is read. Third, no text field may contain `\n`
  or `\r`: the file is read in text mode, which ends a line at either, so
  such a record would come back as two broken lines.
- `SymbolDatabase.SaveThenLoad`: proved under the same three conditions as
  `ParseFormatLine`, for the same reasons.
- Python's recursion limit is not modelled. The demangler recurses once per
  nested name, template argument or function argument, so a deeply nested
  name raises `RecursionError` in the source. `get_demangled_symbol` lets
  it propagate (db.py:122 catches only `DemanglerException`), and the bare
  `except` of `search_functions` (db.py:197) skips that name. The model's
  demangler always returns a result or its own exception.
