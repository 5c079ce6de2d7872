/** The worked examples of `run_tests` in `Tools/demangler.py`, each derived
    from the laws step by step, and the composition laws they are built from:
    the header loop, argument lists, qualified names and literal names. */
module DemanglerExamples {
  import opened Failures
  import opened PyStr
  import opened Demangler
  import opened DemanglerLaws

  // ---------------------------------------------------------------------------
  // The header loop of `demangle_symbol`

  /** `F` ends the header and starts the argument list. */
  lemma HeaderFunction(s: string, isConst: bool, namespace: Option<string>)
    ensures ScanHeader("F" + s, isConst, namespace) == Ok(Header(isConst, true, namespace, s))
  {
    assert ("F" + s)[0] == 'F' && ("F" + s)[1..] == s;
  }

  /** `C` marks the function const and is otherwise skipped. */
  lemma HeaderConst(s: string, isConst: bool, namespace: Option<string>)
    ensures ScanHeader("C" + s, isConst, namespace) == ScanHeader(s, true, namespace)
  {
    assert ("C" + s)[0] == 'C' && ("C" + s)[1..] == s;
  }

  /** The end of the symbol ends the header without an argument list. */
  lemma HeaderEnd(isConst: bool, namespace: Option<string>)
    ensures ScanHeader("", isConst, namespace) == Ok(Header(isConst, false, namespace, ""))
  {
  }

  /** Any other node becomes the namespace. */
  lemma HeaderNode(s: string, d: Decoded<string>, isConst: bool, namespace: Option<string>)
    requires |s| > 0 && s[0] != 'F' && s[0] != 'C'
    requires Node(s) == Ok(d)
    ensures ScanHeader(s, isConst, namespace) == ScanHeader(d.rest, isConst, Some(d.value))
  {
    LastNamespaceKept(s, isConst, namespace);
  }

  // ---------------------------------------------------------------------------
  // Argument lists

  lemma ArgsEnd()
    ensures FuncArgs("") == Ok(Signature([], None, ""))
  {
  }

  lemma ArgsReturn(s: string, d: Decoded<string>)
    requires Node(s) == Ok(d)
    ensures FuncArgs("_" + s) == Ok(Signature([], Some(d.value), d.rest))
  {
    FuncArgsReturn(s);
  }

  lemma ArgsCons(s: string, d: Decoded<string>, tail: Signature)
    requires |s| > 0 && s[0] != '_'
    requires Node(s) == Ok(d) && FuncArgs(d.rest) == Ok(tail)
    ensures FuncArgs(s) == Ok(Signature([d.value] + tail.args, tail.ret, tail.rest))
  {
    FuncArgsArgument(s);
  }

  // ---------------------------------------------------------------------------
  // Qualified names

  lemma QEnd(s: string)
    ensures QComponents(0, s) == Ok(Decoded([], s))
  {
  }

  lemma QCons(n: nat, s: string, d: Decoded<string>, others: Decoded<seq<string>>)
    requires n > 0
    requires Node(s) == Ok(d) && QComponents(n - 1, d.rest) == Ok(others)
    ensures QComponents(n, s) == Ok(Decoded([d.value] + others.value, others.rest))
  {
  }

  /** `Q2` with its two components. */
  lemma Qualified2(s: string, first: Decoded<string>, second: Decoded<string>)
    requires Node(s) == Ok(first) && Node(first.rest) == Ok(second)
    ensures Node("Q2" + s) == Ok(Decoded(first.value + "::" + second.value, second.rest))
  {
    QEnd(second.rest);
    QCons(1, first.rest, second, Decoded([], second.rest));
    assert [second.value] + [] == [second.value];
    QCons(2, s, first, Decoded([second.value], second.rest));
    NodeQualified(2, s);
    QualifierDigit(s);
    JoinPair(first.value, second.value);
  }

  lemma QualifierDigit(s: string)
    ensures "Q" + [DecimalDigit(2)] + s == "Q2" + s
  {
    assert [DecimalDigit(2)] == "2";
  }

  lemma JoinPair(a: string, b: string)
    ensures Join([a] + [b], "::") == a + "::" + b
  {
    assert ([a] + [b])[1..] == [b];
  }

  // ---------------------------------------------------------------------------
  // Literal names

  /** `<length><name>` for a name without template arguments. */
  lemma Literal(body: string, rest: string)
    requires |body| > 0 && !IsDigit(body[0]) && '<' !in body
    ensures Node(NatToString(|body|) + body + rest) == Ok(Decoded(body, rest))
  {
    NoTemplate(body);
    NodeLiteralName(body, rest);
  }

  /** A node that is not a qualifier code reads as its body. */
  lemma Body(t: string, d: Decoded<string>)
    requires |t| > 0 && t[0] !in NodePrefixes && t[0] !in NodeSuffixes
    requires Node(t) == Ok(d)
    ensures NodeBody(t) == Ok(d)
  {
    NodeUnqualified(t);
  }

  /** `P<node>`: a pointer. */
  lemma Pointer(t: string, d: Decoded<string>)
    requires |t| > 0 && t[0] !in NodePrefixes && t[0] !in NodeSuffixes
    requires Node(t) == Ok(d)
    ensures Node("P" + t) == Ok(Decoded(d.value + "*", d.rest))
  {
    Body(t, d);
    CodesP();
    NodeWithQualifiers("P", t);
    RenderPointer(d.value);
  }

  lemma CodesP()
    ensures QualifierCodes("P") && PrefixWords("P") == [] && SuffixMarks("P") == ["*"]
  {
  }

  lemma RenderPointer(v: string)
    ensures Render([], v, ["*"]) == v + "*"
  {
    RenderNoPrefix(v, ["*"]);
  }

  /** `PC<node>`: a pointer to const. */
  lemma ConstPointer(t: string, d: Decoded<string>)
    requires |t| > 0 && t[0] !in NodePrefixes && t[0] !in NodeSuffixes && t[0] != 'F'
    requires Node(t) == Ok(d)
    ensures Node("PC" + t) == Ok(Decoded("const " + d.value + "*", d.rest))
  {
    Body(t, d);
    CodesPC();
    NodeWithQualifiers("PC", t);
    RenderConstPointer(d.value);
  }

  lemma CodesPC()
    ensures QualifierCodes("PC") && PrefixWords("PC") == ["const"] && SuffixMarks("PC") == ["*"]
  {
    assert "PC"[1..] == "C";
  }

  lemma RenderConstPointer(v: string)
    ensures Render(["const"], v, ["*"]) == "const " + v + "*"
  {
  }

  /** A primitive followed by more input. */
  lemma Primitive(c: char, rest: string)
    requires c in PrimitiveTypes
    ensures Node([c] + rest) == Ok(Decoded(PrimitiveTypes[c], rest))
  {
    NodePrimitive(c, rest);
  }

  // ---------------------------------------------------------------------------
  // Names

  /** A name with no template arguments that is neither special nor a
      constructor or destructor is kept. */
  lemma OrdinaryName(name: string, namespace: Option<string>)
    requires '<' !in name
    requires name !in SpecialNameTable && name != "__ct" && name != "__dt"
    ensures DemangleName(name, namespace) == Ok(name)
  {
    NoTemplate(name);
    SeparateTemplateUnique(name, "");
    assert name + "" == name;
    DemangleNameCases(name, namespace);
  }

  // ---------------------------------------------------------------------------
  // Whole symbols

  /** A function symbol: the return type, the namespace, the decoded name and
      the argument list, with ` const` last. */
  lemma FunctionSymbol(name: string, rest: string, h: Header, sig: Signature, decoded: string)
    requires ScanHeader(rest, false, None) == Ok(h) && h.hasFunc
    requires FuncArgs(h.rest) == Ok(sig) && sig.rest == ""
    requires DemangleName(name, h.namespace) == Ok(decoded)
    ensures DemangleCompound(name, rest)
              == Ok(RetPrefix(sig.ret)
                    + (match h.namespace case None => "" case Some(ns) => ns + "::")
                    + decoded + ("(" + Join(sig.args, ", ") + ")" + (if h.isConst then " const" else "")))
  {
  }

  // ---------------------------------------------------------------------------
  // Spelled names

  /** A name as the mangler writes it: its decimal length, then the name. */
  function Spelled(x: string): string {
    NatToString(|x|) + x
  }

  /** A name without the characters the demangler gives a meaning to. */
  predicate Plain(x: string) {
    |x| > 0 && !IsDigit(x[0]) && '<' !in x && '>' !in x && ',' !in x && ':' !in x && '_' !in x && '-' !in x
  }

  lemma DigitsNoUnderscore(n: nat)
    ensures '_' !in NatToString(n) && IsDigit(NatToString(n)[0])
  {
    NatToStringDigits(n);
    var d := NatToString(n);
    assert forall i :: 0 <= i < |d| ==> IsDigit(d[i]);
  }

  /** A spelled name starts with a digit and has no `_` of its own. */
  lemma SpelledLead(x: string, rest: string)
    requires '_' !in x
    ensures var t := Spelled(x) + rest;
            && |t| > 0 && IsDigit(t[0])
            && t[0] !in NodePrefixes && t[0] !in NodeSuffixes && t[0] != 'F' && t[0] != 'C' && t[0] != '_'
    ensures '_' !in Spelled(x)
  {
    DigitsNoUnderscore(|x|);
    assert (Spelled(x) + rest)[0] == NatToString(|x|)[0];
    DigitNotQualifier(NatToString(|x|)[0]);
  }

  /** The literal node of a spelled name. */
  lemma SpelledNode(x: string, rest: string)
    requires |x| > 0 && !IsDigit(x[0]) && '<' !in x
    ensures Node(Spelled(x) + rest) == Ok(Decoded(x, rest))
  {
    Literal(x, rest);
  }

  /** The special names all start with `__`. */
  lemma SpecialNamesMarked()
    ensures forall k :: k in SpecialNameTable ==> |k| >= 2 && k[0] == '_' && k[1] == '_'
  {
  }

  /** A name that does not start with `_` is kept as it is. */
  lemma KeptName(name: string, namespace: Option<string>)
    requires |name| > 0 && name[0] != '_' && '<' !in name
    ensures DemangleName(name, namespace) == Ok(name)
  {
    SpecialNamesMarked();
    OrdinaryName(name, namespace);
  }

  /** A destructor of a class named without namespace. */
  lemma DestructorName(c: string)
    requires ':' !in c && '<' !in c
    ensures DemangleName("__dt", Some(c)) == Ok("~" + c)
  {
    NoTemplate("__dt");
    SeparateTemplateUnique("__dt", "");
    assert "__dt" + "" == "__dt";
    ConstructorNamesNotSpecial();
    DemangleNameCases("__dt", Some(c));
    ClassNameOnly(c);
    SeparateTemplateUnique(c, "");
    assert c + "" == c;
    assert "~" + c + "" == "~" + c;
  }

  /** The special member name of virtual tables. */
  lemma VTableName(namespace: Option<string>)
    ensures DemangleName("__vt", namespace) == Ok("VTable")
  {
    NoTemplate("__vt");
    SeparateTemplateUnique("__vt", "");
    VTableEntry();
    DemangleNameCases("__vt", namespace);
    EmptyRight("VTable");
  }

  lemma VTableEntry()
    ensures "__vt" in SpecialNameTable && SpecialNameTable["__vt"] == "VTable"
  {
  }

  /** A constructor of a class `c` inside a namespace. */
  lemma ConstructorNameIn(ns: string, c: string)
    requires ':' !in c && '<' !in c
    ensures DemangleName("__ct", Some(ns + "::" + c)) == Ok(c)
  {
    NoTemplate("__ct");
    SeparateTemplateUnique("__ct", "");
    EmptyRight("__ct");
    ConstructorNamesNotSpecial();
    DemangleNameCases("__ct", Some(ns + "::" + c));
    ClassNameLast(ns, c);
    SeparateTemplateUnique(c, "");
    EmptyRight(c);
  }

  // ---------------------------------------------------------------------------
  // Headers

  /** A namespace node and nothing after it: a data symbol. */
  lemma HeaderData(s: string, v: string)
    requires |s| > 0 && s[0] != 'F' && s[0] != 'C'
    requires Node(s) == Ok(Decoded(v, ""))
    ensures ScanHeader(s, false, None) == Ok(Header(false, false, Some(v), ""))
  {
    HeaderNode(s, Decoded(v, ""), false, None);
    HeaderEnd(false, Some(v));
  }

  /** A namespace node followed by `F` and the arguments. */
  lemma HeaderMethod(s: string, v: string, args: string)
    requires |s| > 0 && s[0] != 'F' && s[0] != 'C'
    requires Node(s) == Ok(Decoded(v, "F" + args))
    ensures ScanHeader(s, false, None) == Ok(Header(false, true, Some(v), args))
  {
    HeaderNode(s, Decoded(v, "F" + args), false, None);
    HeaderFunction(args, false, Some(v));
  }

  /** A namespace node followed by `CF` and the arguments. */
  lemma HeaderConstMethod(s: string, v: string, args: string)
    requires |s| > 0 && s[0] != 'F' && s[0] != 'C'
    requires Node(s) == Ok(Decoded(v, "CF" + args))
    ensures ScanHeader(s, false, None) == Ok(Header(true, true, Some(v), args))
  {
    HeaderNode(s, Decoded(v, "CF" + args), false, None);
    ConstMark(args);
    HeaderConst("F" + args, false, Some(v));
    HeaderFunction(args, true, Some(v));
  }

  lemma ConstMark(args: string)
    ensures "CF" + args == "C" + ("F" + args)
  {
  }

  /** `Q2` and two spelled names. */
  lemma SpelledQualified(a: string, b: string, rest: string)
    requires |a| > 0 && !IsDigit(a[0]) && '<' !in a
    requires |b| > 0 && !IsDigit(b[0]) && '<' !in b
    ensures Node("Q2" + Spelled(a) + Spelled(b) + rest) == Ok(Decoded(a + "::" + b, rest))
  {
    SpelledNode(b, rest);
    QualifiedNode(a, Spelled(b), b, rest);
  }

  /** `Q2`, a spelled namespace and any node. */
  lemma QualifiedNode(a: string, x: string, v: string, rest: string)
    requires |a| > 0 && !IsDigit(a[0]) && '<' !in a
    requires Node(x + rest) == Ok(Decoded(v, rest))
    ensures Node("Q2" + Spelled(a) + x + rest) == Ok(Decoded(a + "::" + v, rest))
  {
    SpelledNode(a, x + rest);
    Qualified2(Spelled(a) + (x + rest), Decoded(a, x + rest), Decoded(v, rest));
    QualifiedRegroup(Spelled(a), x, rest);
  }

  lemma QualifiedRegroup(x: string, y: string, z: string)
    ensures "Q2" + x + y + z == "Q2" + (x + (y + z))
  {
  }

  /** The header of a symbol whose rest starts with `Q2` and two spelled names. */
  lemma QualifiedLead(a: string, b: string, rest: string)
    requires '_' !in a && '_' !in b
    ensures var t := "Q2" + Spelled(a) + Spelled(b) + rest;
            |t| > 0 && t[0] == 'Q' && '_' !in "Q2" + Spelled(a) + Spelled(b)
  {
    SpelledLead(b, "");
    QualifiedLeadWith(a, Spelled(b), rest);
  }

  lemma QualifiedHead(x: string, y: string, z: string)
    ensures |"Q2" + x + y + z| > 0 && ("Q2" + x + y + z)[0] == 'Q'
  {
  }

  lemma QualifiedLeadWith(a: string, x: string, rest: string)
    requires '_' !in a && '_' !in x
    ensures var t := "Q2" + Spelled(a) + x + rest;
            |t| > 0 && t[0] == 'Q' && '_' !in "Q2" + Spelled(a) + x
  {
    SpelledLead(a, "");
  }

  // ---------------------------------------------------------------------------
  // The examples of `run_tests`

  /** `"__vt__11TalkBalloon"`: the virtual table of a class. */
  lemma VirtualTable(c: string)
    requires Plain(c)
    ensures DemangleSymbol("__vt__" + Spelled(c)) == Ok(c + "::VTable")
  {
    SpelledLead(c, "");
    UnderscoreFree(Spelled(c));
    VirtualTableSplit(Spelled(c));
    SplitAtLast("__vt", Spelled(c));
    SpelledNode(c, "");
    EmptyRight(Spelled(c));
    HeaderData(Spelled(c), c);
    VTableName(Some(c));
    DataSymbol("__vt", Spelled(c));
    VTableText(c);
  }

  lemma VTableText(ns: string)
    ensures (match Some(ns) case None => "" case Some(n) => n + "::") + "VTable" == ns + "::VTable"
  {
    assert "::" + "VTable" == "::VTable";
  }

  lemma VirtualTableSplit(x: string)
    ensures "__vt__" + x == "__vt" + "__" + x
  {
    assert "__vt__" == "__vt" + "__";
  }

  lemma DataText(ns: string, name: string)
    ensures (match Some(ns) case None => "" case Some(n) => n + "::") + name == ns + "::" + name
  {
  }

  /** `"__vt__Q219NrvTalkBalloonEvent24TalkBalloonEventNrvClose"`: the
      virtual table of a class inside a namespace. */
  lemma QualifiedVirtualTable(a: string, b: string)
    requires Plain(a) && Plain(b)
    ensures DemangleSymbol("__vt__Q2" + Spelled(a) + Spelled(b)) == Ok(a + "::" + b + "::VTable")
  {
    var rest := "Q2" + Spelled(a) + Spelled(b);
    QualifiedLead(a, b, "");
    EmptyRight(rest);
    UnderscoreFree(rest);
    VirtualTableQ2Split(Spelled(a), Spelled(b));
    SplitAtLast("__vt", rest);
    SpelledQualified(a, b, "");
    HeaderData(rest, a + "::" + b);
    VTableName(Some(a + "::" + b));
    DataSymbol("__vt", rest);
    VTableText(a + "::" + b);
  }

  lemma QualifiedSplit(name: string, x: string, y: string)
    ensures name + "__Q2" + x + y == name + "__" + ("Q2" + x + y)
  {
    assert "__Q2" == "__" + "Q2";
  }

  lemma VirtualTableQ2Split(x: string, y: string)
    ensures "__vt__Q2" + x + y == "__vt" + "__" + ("Q2" + x + y)
  {
    assert "__vt__Q2" == "__vt" + "__Q2";
    QualifiedSplit("__vt", x, y);
  }

  /** `"sCameraTable__12CameraHolder"`: a static data member. */
  lemma StaticMember(name: string, c: string)
    requires |name| > 0 && name[0] != '_' && '<' !in name
    requires Plain(c)
    ensures DemangleSymbol(name + "__" + Spelled(c)) == Ok(c + "::" + name)
  {
    SpelledLead(c, "");
    UnderscoreFree(Spelled(c));
    SplitAtLast(name, Spelled(c));
    SpelledNode(c, "");
    EmptyRight(Spelled(c));
    HeaderData(Spelled(c), c);
    KeptName(name, Some(c));
    DataSymbol(name, Spelled(c));
    DataText(c, name);
  }

  /** `"__ct__Q214NrvTakeOutStar18TakeOutStarNrvAnimFv"`: a constructor of a
      class inside a namespace. */
  lemma QualifiedConstructor(a: string, b: string)
    requires Plain(a) && Plain(b)
    ensures DemangleSymbol("__ct__Q2" + Spelled(a) + Spelled(b) + "Fv") == Ok(a + "::" + b + "::" + b + "(void)")
  {
    var rest := "Q2" + Spelled(a) + Spelled(b) + "Fv";
    QualifiedLead(a, b, "Fv");
    UnderscoreFree(rest);
    ConstructorQ2Split(Spelled(a), Spelled(b), "Fv");
    SplitAtLast("__ct", rest);
    assert "F" + "v" == "Fv";
    SpelledQualified(a, b, "F" + "v");
    HeaderMethod(rest, a + "::" + b, "v");
    VoidArgs();
    ConstructorNameIn(a, b);
    FunctionSymbol("__ct", rest, Header(false, true, Some(a + "::" + b), "v"), Signature(["void"], None, ""), b);
    VoidMethodText(a + "::" + b, b);
  }

  lemma QualifiedSplit4(name: string, x: string, y: string, z: string)
    ensures name + "__Q2" + x + y + z == name + "__" + ("Q2" + x + y + z)
  {
    assert "__Q2" == "__" + "Q2";
  }

  lemma ConstructorQ2Split(x: string, y: string, z: string)
    ensures "__ct__Q2" + x + y + z == "__ct" + "__" + ("Q2" + x + y + z)
  {
    assert "__ct__Q2" == "__ct" + "__Q2";
    QualifiedSplit4("__ct", x, y, z);
  }

  lemma VoidMethodText(ns: string, name: string)
    ensures RetPrefix(None) + (match Some(ns) case None => "" case Some(n) => n + "::") + name
              + ("(" + Join(["void"], ", ") + ")" + "")
            == ns + "::" + name + "(void)"
  {
    assert Join(["void"], ", ") == "void";
    assert "(" + "void" + ")" + "" == "(void)";
  }

  /** The text of a method with one argument (or one rendered list). */
  lemma MethodText(ns: string, name: string, args: string, post: string)
    ensures RetPrefix(None) + (match Some(ns) case None => "" case Some(n) => n + "::") + name
              + ("(" + Join([args], ", ") + ")" + post)
            == ns + "::" + name + "(" + args + ")" + post
  {
    assert Join([args], ", ") == args;
  }

  // ---------------------------------------------------------------------------
  // The examples of `run_tests`

  /** `"__dt__18MorphItemNeoTeresaFv"`: a destructor without arguments. */
  lemma Destructor(c: string)
    requires Plain(c)
    ensures DemangleSymbol("__dt__" + Spelled(c) + "Fv") == Ok(c + "::~" + c + "(void)")
  {
    var rest := Spelled(c) + "Fv";
    SpelledLead(c, "Fv");
    UnderscoreFree(rest);
    assert "__dt" + "__" == "__dt__";
    SplitLast("__dt", Spelled(c), "Fv");
    SplitAtLast("__dt", rest);
    assert "F" + "v" == "Fv";
    NamespaceHeader(c, "v");
    VoidArgs();
    DestructorName(c);
    FunctionSymbol("__dt", rest, Header(false, true, Some(c), "v"), Signature(["void"], None, ""), "~" + c);
    DestructorText(c);
  }

  lemma SplitLast(name: string, a: string, b: string)
    ensures name + "__" + a + b == name + "__" + (a + b)
  {
  }

  /** A spelled class name followed by `F` and the arguments. */
  lemma NamespaceHeader(c: string, args: string)
    requires |c| > 0 && !IsDigit(c[0]) && '<' !in c && '_' !in c
    ensures ScanHeader(Spelled(c) + ("F" + args), false, None) == Ok(Header(false, true, Some(c), args))
  {
    SpelledLead(c, "F" + args);
    SpelledNode(c, "F" + args);
    HeaderNode(Spelled(c) + ("F" + args), Decoded(c, "F" + args), false, None);
    HeaderFunction(args, false, Some(c));
  }

  lemma VoidArgs()
    ensures FuncArgs("v") == Ok(Signature(["void"], None, ""))
  {
    Primitive('v', "");
    assert ['v'] + "" == "v";
    ArgsEnd();
    ArgsCons("v", Decoded("void", ""), Signature([], None, ""));
    assert ["void"] + [] == ["void"];
  }

  lemma DestructorText(c: string)
    ensures RetPrefix(None) + (c + "::") + ("~" + c) + ("(" + Join(["void"], ", ") + ")" + "")
              == c + "::~" + c + "(void)"
  {
    assert Join(["void"], ", ") == "void";
  }

  lemma ExamplePlain()
    ensures DemangleSymbol("ARCOpen") == Ok("ARCOpen")
  {
    UnderscoreFree("ARCOpen");
    PassThroughPlain("ARCOpen");
  }

  /** `"JPASetLineWidth__FP18JPAEmitterWorkData"`: a function outside any
      class taking a pointer. */
  lemma FreeFunction(f: string, c: string)
    requires |f| > 0 && f[0] != '_' && '<' !in f
    requires Plain(c)
    ensures DemangleSymbol(f + "__FP" + Spelled(c)) == Ok(f + "(" + c + "*)")
  {
    var arg := "P" + Spelled(c);
    var rest := "F" + arg;
    SpelledLead(c, "");
    UnderscoreFree(rest);
    FreeFunctionSplit(f, Spelled(c));
    SplitAtLast(f, rest);
    HeaderFunction(arg, false, None);
    SpelledPointer(c, "");
    EmptyRight(arg);
    SingleArg(arg, c + "*");
    KeptName(f, None);
    FunctionSymbol(f, rest, Header(false, true, None, arg), Signature([c + "*"], None, ""), f);
    FreeFunctionText(f, c);
  }

  lemma EmptyRight(x: string)
    ensures x + "" == x
  {
  }

  lemma FreeFunctionText(f: string, c: string)
    ensures RetPrefix(None) + "" + f + ("(" + Join([c + "*"], ", ") + ")" + "") == f + "(" + c + "*)"
  {
    assert Join([c + "*"], ", ") == c + "*";
  }

  lemma FreeFunctionSplit(f: string, x: string)
    ensures f + "__FP" + x == f + "__" + ("F" + ("P" + x))
  {
    assert "__FP" == "__" + "F" + "P";
  }

  /** `P` and a spelled class name: a pointer to the class. */
  lemma SpelledPointer(c: string, rest: string)
    requires Plain(c)
    ensures Node("P" + Spelled(c) + rest) == Ok(Decoded(c + "*", rest))
  {
    SpelledLead(c, rest);
    SpelledNode(c, rest);
    Pointer(Spelled(c) + rest, Decoded(c, rest));
    assert "P" + Spelled(c) + rest == "P" + (Spelled(c) + rest);
  }

  /** An argument list of one node. */
  lemma SingleArg(s: string, v: string)
    requires |s| > 0 && s[0] != '_'
    requires Node(s) == Ok(Decoded(v, ""))
    ensures FuncArgs(s) == Ok(Signature([v], None, ""))
  {
    ArgsEnd();
    ArgsCons(s, Decoded(v, ""), Signature([], None, ""));
    SingletonAppend(v);
  }

  lemma SingletonAppend(x: string)
    ensures [x] + [] == [x]
  {
  }

  /** `"execute__Q214NrvDemoStarter18DemoStarterNrvTermCFP5Spine"`: a const
      method of a class inside a namespace. */
  lemma QualifiedConstMethod(m: string, a: string, b: string, c: string)
    requires |m| > 0 && m[0] != '_' && '<' !in m
    requires Plain(a) && Plain(b) && Plain(c)
    ensures DemangleSymbol(m + "__Q2" + Spelled(a) + Spelled(b) + "CFP" + Spelled(c))
              == Ok(a + "::" + b + "::" + m + "(" + c + "*) const")
  {
    var arg := "P" + Spelled(c);
    var rest := "Q2" + Spelled(a) + Spelled(b) + ("CF" + arg);
    QualifiedLead(a, b, "CF" + arg);
    SpelledLead(c, "");
    UnderscoreFree(rest);
    ConstMethodSplit(m, Spelled(a), Spelled(b), Spelled(c));
    SplitAtLast(m, rest);
    SpelledQualified(a, b, "CF" + arg);
    HeaderConstMethod(rest, a + "::" + b, arg);
    SpelledPointer(c, "");
    EmptyRight(arg);
    SingleArg(arg, c + "*");
    KeptName(m, Some(a + "::" + b));
    FunctionSymbol(m, rest, Header(true, true, Some(a + "::" + b), arg), Signature([c + "*"], None, ""), m);
    ConstMethodText(a + "::" + b, m, c);
  }

  lemma ConstMethodSplit(m: string, x: string, y: string, z: string)
    ensures m + "__Q2" + x + y + "CFP" + z == m + "__" + ("Q2" + x + y + ("CF" + ("P" + z)))
  {
    assert "__Q2" == "__" + "Q2";
    assert "CFP" == "CF" + "P";
  }

  lemma ConstMethodText(ns: string, m: string, c: string)
    ensures RetPrefix(None) + (match Some(ns) case None => "" case Some(n) => n + "::") + m
              + ("(" + Join([c + "*"], ", ") + ")" + (if true then " const" else ""))
            == ns + "::" + m + "(" + c + "*) const"
  {
    assert Join([c + "*"], ", ") == c + "*";
    assert "*" + ")" + " const" == "*) const";
  }

  /** `"setAllAnimFrameAtEnd__2MRFPC9LiveActorPCc"`: a function in a
      namespace taking two pointers to const. */
  lemma NamespacedConstPointers(f: string, ns: string, c: string)
    requires |f| > 0 && f[0] != '_' && '<' !in f
    requires Plain(ns) && Plain(c)
    ensures DemangleSymbol(f + "__" + Spelled(ns) + "FPC" + Spelled(c) + "PCc")
              == Ok(ns + "::" + f + "(const " + c + "*, const char*)")
  {
    var second := "PCc";
    var args := "PC" + (Spelled(c) + second);
    var rest := Spelled(ns) + ("F" + args);
    SpelledLead(ns, "F" + args);
    SpelledLead(c, second);
    UnderscoreFree(rest);
    ConstPointersSplit(f, Spelled(ns), Spelled(c));
    SplitAtLast(f, rest);
    SpelledNode(ns, "F" + args);
    HeaderMethod(rest, ns, args);
    SpelledNode(c, second);
    ConstPointer(Spelled(c) + second, Decoded(c, second));
    ConstChar("");
    EmptyRight("PCc");
    TwoArgs(args, "const " + c + "*", second, "const char*");
    KeptName(f, Some(ns));
    FunctionSymbol(f, rest, Header(false, true, Some(ns), args), Signature(["const " + c + "*", "const char*"], None, ""), f);
    ConstPointersText(ns, f, c);
  }

  lemma ConstPointersSplit(f: string, x: string, y: string)
    ensures f + "__" + x + "FPC" + y + "PCc" == f + "__" + (x + ("F" + ("PC" + (y + "PCc"))))
  {
    assert "FPC" == "F" + "PC";
  }

  /** `PCc`: a pointer to const char. */
  lemma ConstChar(rest: string)
    ensures Node("PCc" + rest) == Ok(Decoded("const char*", rest))
  {
    Primitive('c', rest);
    ConstPointer(['c'] + rest, Decoded("char", rest));
    ConstCharText(rest);
  }

  lemma ConstCharText(rest: string)
    ensures "PC" + (['c'] + rest) == "PCc" + rest
    ensures "const " + "char" + "*" == "const char*"
  {
  }

  /** Two arguments and nothing after them. */
  lemma TwoArgs(s: string, v1: string, t: string, v2: string)
    requires |s| > 0 && s[0] != '_' && Node(s) == Ok(Decoded(v1, t))
    requires |t| > 0 && t[0] != '_' && Node(t) == Ok(Decoded(v2, ""))
    ensures FuncArgs(s) == Ok(Signature([v1, v2], None, ""))
  {
    SingleArg(t, v2);
    ArgsCons(s, Decoded(v1, t), Signature([v2], None, ""));
    assert [v1] + [v2] == [v1, v2];
  }

  lemma ConstPointersText(ns: string, f: string, c: string)
    ensures RetPrefix(None) + (match Some(ns) case None => "" case Some(n) => n + "::") + f
              + ("(" + Join(["const " + c + "*", "const char*"], ", ") + ")" + (if false then " const" else ""))
            == ns + "::" + f + "(const " + c + "*, const char*)"
  {
    JoinTwo("const " + c + "*", "const char*", ", ");
    assert "(" + "const " == "(const ";
    assert "*" + ", " + "const char*" + ")" == "*, const char*)";
  }

  lemma JoinTwo(a: string, b: string, sep: string)
    ensures Join([a, b], sep) == a + sep + b
  {
    assert [a, b] == [a] + [b];
  }

  /** `"makeMtxRotate__2MRFPA4_ffff"`: a pointer to an array and three floats. */
  lemma NamespacedArrayPointer(f: string, ns: string, n: nat)
    requires |f| > 0 && f[0] != '_' && '<' !in f
    requires Plain(ns)
    ensures DemangleSymbol(f + "__" + Spelled(ns) + "FPA" + NatToString(n) + "_ffff")
              == Ok(ns + "::" + f + "(float[" + NatToString(n) + "]*, float, float, float)")
  {
    var count := NatToString(n);
    var arr := "A" + Zeros(0) + count + "_" + "ffff";
    var args := "P" + arr;
    var rest := Spelled(ns) + ("F" + args);
    var first := "float" + "[" + count + "]" + "*";
    DigitsNoUnderscore(n);
    SpelledLead(ns, "F" + args);
    ArrayRest(Spelled(ns), count);
    ArraySplit(f, Spelled(ns), count);
    SplitAtLast(f, rest);
    SpelledNode(ns, "F" + args);
    HeaderMethod(rest, ns, args);
    ArrayArgs(n);
    KeptName(f, Some(ns));
    FunctionSymbol(f, rest, Header(false, true, Some(ns), args),
                   Signature([first] + ["float", "float", "float"], None, ""), f);
    ArrayPointerText(ns, f, count);
  }

  /** `PA<n>_ffff`: a pointer to an array of floats, then three floats. */
  lemma ArrayArgs(n: nat)
    ensures var count := NatToString(n);
            FuncArgs("P" + ("A" + Zeros(0) + count + "_" + "ffff"))
              == Ok(Signature([("float" + "[" + count + "]" + "*")] + ["float", "float", "float"], None, ""))
  {
    var count := NatToString(n);
    var arr := "A" + Zeros(0) + count + "_" + "ffff";
    ArrayNode(n);
    Pointer(arr, Decoded("float" + "[" + count + "]", "fff"));
    ThreeFloats();
    ArgsCons("P" + arr, Decoded("float" + "[" + count + "]" + "*", "fff"), Signature(["float", "float", "float"], None, ""));
  }

  lemma ArrayNode(n: nat)
    ensures var count := NatToString(n);
            Node("A" + Zeros(0) + count + "_" + "ffff") == Ok(Decoded("float" + "[" + count + "]", "fff"))
  {
    Primitive('f', "fff");
    assert ['f'] + "fff" == "ffff";
    NodeArray(0, n, "ffff");
  }

  lemma ArraySplit(f: string, x: string, count: string)
    ensures f + "__" + x + "FPA" + count + "_ffff"
              == f + "__" + (x + ("F" + ("P" + ("A" + Zeros(0) + count + "_" + "ffff"))))
  {
    assert Zeros(0) == "";
    assert "FPA" == "F" + "P" + "A";
    assert "_ffff" == "_" + "ffff";
  }

  /** The rest of the array example has one `_` only. */
  lemma ArrayRest(x: string, count: string)
    requires '_' !in x && '_' !in count
    ensures NoDoubleUnderscore(x + ("F" + ("P" + ("A" + Zeros(0) + count + "_" + "ffff"))))
  {
    assert Zeros(0) == "";
    var a := x + "FPA" + count;
    assert x + ("F" + ("P" + ("A" + Zeros(0) + count + "_" + "ffff"))) == a + "_" + "ffff";
    OneUnderscore(a, "ffff");
  }

  /** A string with exactly one `_` has no `__`. */
  lemma OneUnderscore(a: string, b: string)
    requires '_' !in a && '_' !in b
    ensures NoDoubleUnderscore(a + "_" + b)
  {
    var s := a + "_" + b;
    forall j | 0 <= j < |s| - 1
      ensures !(s[j] == '_' && s[j + 1] == '_')
    {
      if j < |a| {
        assert s[j] == a[j];
      } else if j == |a| {
        assert s[j + 1] == b[0];
      } else {
        assert s[j] == b[j - |a| - 1];
      }
    }
  }

  /** `k` float arguments. */
  function FloatArgs(k: nat): seq<string> {
    if k == 0 then [] else ["float"] + FloatArgs(k - 1)
  }

  /** A run of `f` codes: one `float` argument per code. */
  lemma {:induction false} Floats(s: string)
    requires forall k :: 0 <= k < |s| ==> s[k] == 'f'
    ensures FuncArgs(s) == Ok(Signature(FloatArgs(|s|), None, ""))
    decreases |s|
  {
    if s == [] {
      ArgsEnd();
    } else {
      Floats(s[1..]);
      FloatsStep(s[1..], FloatArgs(|s| - 1));
      assert ['f'] + s[1..] == s;
    }
  }

  lemma FloatsStep(rest: string, args: seq<string>)
    requires FuncArgs(rest) == Ok(Signature(args, None, ""))
    ensures FuncArgs(['f'] + rest) == Ok(Signature(["float"] + args, None, ""))
  {
    Primitive('f', rest);
    ArgsCons(['f'] + rest, Decoded("float", rest), Signature(args, None, ""));
  }

  /** `ff`: two floats. */
  lemma TwoFloats()
    ensures FuncArgs("ff") == Ok(Signature(["float", "float"], None, ""))
  {
    assert FloatArgs(2) == ["float", "float"];
    Floats("ff");
  }

  /** `fff`: three floats. */
  lemma ThreeFloats()
    ensures FuncArgs("fff") == Ok(Signature(["float", "float", "float"], None, ""))
  {
    assert FloatArgs(3) == ["float", "float", "float"];
    Floats("fff");
  }

  lemma ArrayPointerText(ns: string, f: string, count: string)
    ensures RetPrefix(None) + (match Some(ns) case None => "" case Some(n) => n + "::") + f
              + ("(" + Join([("float" + "[" + count + "]" + "*")] + ["float", "float", "float"], ", ") + ")"
                 + (if false then " const" else ""))
            == ns + "::" + f + "(float[" + count + "]*, float, float, float)"
  {
    var first := "float" + "[" + count + "]" + "*";
    JoinFloats(first);
    ArrayArgsText(count);
    EmptyRight("(" + Join([first] + ["float", "float", "float"], ", ") + ")");
  }

  lemma ArrayArgsText(count: string)
    ensures "(" + ("float" + "[" + count + "]" + "*" + ", float, float, float") + ")"
            == "(float[" + count + "]*, float, float, float)"
  {
    Shape8("(", "float", "[", count, "]", "*", ", float, float, float", ")");
    ArrayArgsLeft();
    ArrayArgsRight();
  }

  lemma Shape8(a: string, b: string, c: string, d: string, e: string, f: string, g: string, h: string)
    ensures a + (b + c + d + e + f + g) + h == (a + b + c) + d + (e + f + g + h)
  {
  }

  lemma ArrayArgsLeft()
    ensures "(" + "float" + "[" == "(float["
  {
  }

  lemma ArrayArgsRight()
    ensures "]" + "*" + ", float, float, float" + ")" == "]*, float, float, float)"
  {
  }

  lemma JoinFloats(first: string)
    ensures Join([first] + ["float", "float", "float"], ", ") == first + ", float, float, float"
  {
    var parts := [first] + ["float", "float", "float"];
    assert parts[1..] == ["float", "float", "float"];
    assert ["float", "float", "float"][1..] == ["float", "float"];
    assert ["float", "float"][1..] == ["float"];
    assert Join(["float"], ", ") == "float";
    assert Join(["float", "float"], ", ") == "float, float";
    assert Join(["float", "float", "float"], ", ") == "float, float, float";
  }

  // ---------------------------------------------------------------------------
  // Template arguments

  /** A primitive type code as a template argument. */
  lemma PrimitiveArg(c: char)
    requires c in PrimitiveTypes
    ensures Flat([c]) && ArgRenders([c]) && RenderedArg([c]) == PrimitiveTypes[c]
  {
    PrimitiveLetter(c);
    assert !IsIntegral([c]);
    Primitive(c, "");
    EmptyRight([c]);
  }

  /** The primitive codes are lower-case letters. */
  lemma PrimitiveLetter(c: char)
    requires c in PrimitiveTypes
    ensures 'a' <= c <= 'z'
  {
  }

  /** A template on one argument. */
  lemma OneTemplateArg(name: string, a: string)
    requires '<' !in name && Flat(a) && ArgRenders(a)
    ensures TryDemangleTemplates(name + "<" + a + ">") == Ok(name + "<" + RenderedArg(a) + ">")
  {
    FlatBalanced(a);
    TemplatedName(name, [a]);
    assert Join([a], ",") == a;
    assert RenderedArgs([a]) == [RenderedArg(a)];
    assert Join([RenderedArg(a)], ", ") == RenderedArg(a);
  }

  /** A template on two arguments. */
  lemma TwoTemplateArgs(name: string, a: string, b: string)
    requires '<' !in name && Flat(a) && ArgRenders(a) && Flat(b) && ArgRenders(b)
    ensures TryDemangleTemplates(name + "<" + a + "," + b + ">")
              == Ok(name + "<" + RenderedArg(a) + ", " + RenderedArg(b) + ">")
  {
    FlatBalanced(a);
    FlatBalanced(b);
    TemplatedName(name, [a, b]);

    JoinTwo(a, b, ",");
    RenderedPair(a, b);
    JoinTwo(RenderedArg(a), RenderedArg(b), ", ");
    Regroup5(name, "<", a, ",", b, ">");
    Regroup5(name, "<", RenderedArg(a), ", ", RenderedArg(b), ">");
  }

  lemma RenderedPair(a: string, b: string)
    requires ArgRenders(a) && ArgRenders(b)
    ensures RenderedArgs([a, b]) == [RenderedArg(a), RenderedArg(b)]
  {
    assert [a, b][1..] == [b];
    assert [b][1..] == [];
    assert RenderedArgs([b]) == [RenderedArg(b)] + RenderedArgs([]);
    assert RenderedArgs([b]) == [RenderedArg(b)];
    assert RenderedArgs([a, b]) == [RenderedArg(a)] + RenderedArgs([b]);
  }

  lemma Regroup5(a: string, b: string, c: string, d: string, e: string, f: string)
    ensures a + b + (c + d + e) + f == a + b + c + d + e + f
  {
  }

  /** The class named by a namespace with a template suffix. */
  lemma TemplateClassName(c: string, args: string)
    requires '<' !in c && ':' !in c && ':' !in args
    ensures ClassName(c + "<" + args + ">") == c
  {
    ClassNameOnly(c + "<" + args + ">");
    TemplatedKeepsName(c, args);
  }

  /** The constructor name gives the class name, without its template. */
  lemma ConstructorOf(cls: string)
    ensures DemangleName("__ct", Some(cls)) == Ok(ClassName(cls))
  {
    NoTemplate("__ct");
    SeparateTemplateUnique("__ct", "");
    EmptyRight("__ct");
    ConstructorNamesNotSpecial();
    DemangleNameCases("__ct", Some(cls));
    EmptyRight(ClassName(cls));
  }

  /** A templated constructor keeps its own template arguments. */
  lemma TemplatedConstructorOf(cls: string, a: string)
    requires Flat(a) && ArgRenders(a)
    ensures DemangleName("__ct<" + a + ">", Some(cls)) == Ok(ClassName(cls) + "<" + RenderedArg(a) + ">")
  {
    var r := RenderedArg(a);
    OneTemplateArg("__ct", a);
    ConstructorTemplateSplit(a);
    TemplatedKeepsName("__ct", a);
    Regroup3("__ct", "<", r, ">");
    SeparateTemplateUnique("__ct", "<" + r + ">");
    ConstructorNamesNotSpecial();
    DemangleNameCases("__ct<" + a + ">", Some(cls));
    Regroup3(ClassName(cls), "<", r, ">");
  }

  lemma ConstructorTemplateSplit(a: string)
    ensures "__ct<" + a + ">" == "__ct" + "<" + a + ">"
  {
    assert "__ct<" == "__ct" + "<";
  }

  /** A templated ordinary name is its rendered template. */
  lemma TemplatedKept(f: string, a: string, namespace: Option<string>)
    requires |f| > 0 && f[0] != '_' && '<' !in f && Flat(a) && ArgRenders(a)
    ensures DemangleName(f + "<" + a + ">", namespace) == Ok(f + "<" + RenderedArg(a) + ">")
  {
    OneTemplateArg(f, a);
    TemplatedKeepsName(f, a);
    SpecialNamesMarked();
    DemangleNameCases(f + "<" + a + ">", namespace);
  }

  /** A spelled name with a template of its own. */
  lemma SpelledTemplate(body: string, decoded: string, rest: string)
    requires |body| > 0 && !IsDigit(body[0])
    requires TryDemangleTemplates(body) == Ok(decoded)
    ensures Node(Spelled(body) + rest) == Ok(Decoded(decoded, rest))
  {
    NodeLiteralName(body, rest);
  }

  /** `"__ct__20NPCParameterRange<f>FPCcPfff"`: the constructor of a class
      template instance. */
  lemma TemplateConstructor(c: string)
    requires Plain(c)
    ensures DemangleSymbol("__ct__" + Spelled(c + "<f>") + "FPCcPfff")
              == Ok(c + "<float>::" + c + "(const char*, float*, float, float)")
  {
    var cls := c + "<f>";
    var args := "PCc" + ("P" + "fff");
    var rest := Spelled(cls) + ("F" + args);
    var sig := Signature(["const char*", "float*", "float", "float"], None, "");
    SpelledLead(cls, "F" + args);
    TemplateConstructorRest(Spelled(cls));
    UnderscoreFree(rest);
    TemplateConstructorSplit(Spelled(cls));
    SplitAtLast("__ct", rest);
    PrimitiveArg('f');
    OneTemplateArg(c, "f");
    FloatTemplate(c);
    SpelledTemplate(cls, c + "<float>", "F" + args);
    HeaderMethod(rest, c + "<float>", args);
    CharFloatArgs();
    ConstructorOf(c + "<float>");
    FloatClassName(c);
    FunctionSymbol("__ct", rest, Header(false, true, Some(c + "<float>"), args), sig, c);
    TemplateConstructorText(c);
  }

  lemma TemplateConstructorRest(x: string)
    requires '_' !in x
    ensures '_' !in x + ("F" + ("PCc" + ("P" + "fff")))
  {
  }

  lemma FloatClassName(c: string)
    requires '<' !in c && ':' !in c
    ensures ClassName(c + "<float>") == c
  {
    TemplateClassName(c, "float");
    FloatTemplate(c);
  }

  lemma TemplateConstructorSplit(x: string)
    ensures "__ct__" + x + "FPCcPfff" == "__ct" + "__" + (x + ("F" + ("PCc" + ("P" + "fff"))))
  {
    assert "__ct__" == "__ct" + "__";
    assert "FPCcPfff" == "F" + ("PCc" + ("P" + "fff"));
  }

  lemma FloatTemplate(c: string)
    ensures c + "<" + "f" + ">" == c + "<f>"
    ensures c + "<" + "float" + ">" == c + "<float>"
  {
    assert "<" + "f" + ">" == "<f>";
    assert "<" + "float" + ">" == "<float>";
  }

  /** `PCcPfff`: a pointer to const char, a pointer to float, two floats. */
  lemma CharFloatArgs()
    ensures FuncArgs("PCc" + ("P" + "fff")) == Ok(Signature(["const char*", "float*", "float", "float"], None, ""))
  {
    ConstChar("P" + "fff");
    Primitive('f', "ff");
    assert ['f'] + "ff" == "fff";
    Pointer("fff", Decoded("float", "ff"));
    TwoFloats();
    ArgsCons("P" + "fff", Decoded("float" + "*", "ff"), Signature(["float", "float"], None, ""));
    CharFloatLists();
    ArgsCons("PCc" + ("P" + "fff"), Decoded("const char*", "P" + "fff"), Signature(["float*", "float", "float"], None, ""));
  }

  lemma CharFloatLists()
    ensures ["float" + "*"] + ["float", "float"] == ["float*", "float", "float"]
    ensures ["const char*"] + ["float*", "float", "float"] == ["const char*", "float*", "float", "float"]
  {
    assert "float" + "*" == "float*";
  }

  lemma TemplateConstructorText(c: string)
    ensures RetPrefix(None) + (match Some(c + "<float>") case None => "" case Some(n) => n + "::") + c
              + ("(" + Join(["const char*", "float*", "float", "float"], ", ") + ")" + (if false then " const" else ""))
            == c + "<float>::" + c + "(const char*, float*, float, float)"
  {
    CharFloatJoin();
    assert "<float>" + "::" == "<float>::";
  }

  lemma CharFloatJoin()
    ensures "(" + Join(["const char*", "float*", "float", "float"], ", ") + ")" + ""
            == "(const char*, float*, float, float)"
  {
    JoinFour("const char*", "float*", "float", "float", ", ");
    CharFloatHead();
    CharFloatTail();
    Shape10("(", "const char*", ", ", "float*", ", ", "float", ", ", "float", ")", "");
  }

  lemma CharFloatHead()
    ensures "(" + "const char*" + ", " + "float*" == "(const char*, float*"
  {
  }

  lemma CharFloatTail()
    ensures ", " + "float" + ", " + "float" + ")" + "" == ", float, float)"
  {
  }

  lemma Shape10(a: string, b: string, c: string, d: string, e: string, f: string, g: string, h: string, i: string, j: string)
    ensures a + (b + c + d + e + f + g + h) + i + j == (a + b + c + d) + (e + f + g + h + i + j)
  {
  }

  lemma JoinFour(a: string, b: string, c: string, d: string, sep: string)
    ensures Join([a, b, c, d], sep) == a + sep + b + sep + c + sep + d
  {
    assert [a, b, c, d][1..] == [b, c, d];
    assert [b, c, d][1..] == [c, d];
    JoinTwo(c, d, sep);
    assert Join([b, c, d], sep) == b + sep + (c + sep + d);
  }

  /** `"findElement<l>__8JMapInfoCFPCcli_12JMapInfoIter"`: a templated const
      method with a return type. */
  lemma TemplatedConstMethod(f: string, c: string, r: string)
    requires |f| > 0 && f[0] != '_' && '<' !in f
    requires Plain(c) && Plain(r)
    ensures DemangleSymbol(f + "<l>__" + Spelled(c) + "CFPCcli_" + Spelled(r))
              == Ok(r + " " + c + "::" + f + "<long>(const char*, long, int) const")
  {
    var name := f + "<l>";
    var args := "PCc" + ("l" + ("i" + ("_" + Spelled(r))));
    var rest := Spelled(c) + ("CF" + args);
    SpelledLead(c, "CF" + args);
    SpelledLead(r, "");
    FindElementRest(Spelled(c), Spelled(r));
    FindElementSplit(f, Spelled(c), Spelled(r));
    SplitAtLast(name, rest);
    SpelledNode(c, "CF" + args);
    HeaderConstMethod(rest, c, args);
    SpelledNode(r, "");
    EmptyRight(Spelled(r));
    ReturningArgs(Spelled(r), r);
    LongTemplatedName(f, Some(c));
    FunctionSymbol(name, rest, Header(true, true, Some(c), args),
                   Signature(["const char*", "long", "int"], Some(r), ""), f + "<long>");
    FindElementText(c, f, r);
  }

  lemma FindElementRest(x: string, y: string)
    requires '_' !in x && '_' !in y
    ensures NoDoubleUnderscore(x + ("CF" + ("PCc" + ("l" + ("i" + ("_" + y))))))
  {
    assert x + ("CF" + ("PCc" + ("l" + ("i" + ("_" + y))))) == x + "CFPCcli" + "_" + y;
    OneUnderscore(x + "CFPCcli", y);
  }

  lemma FindElementSplit(f: string, x: string, y: string)
    ensures f + "<l>__" + x + "CFPCcli_" + y == f + "<l>" + "__" + (x + ("CF" + ("PCc" + ("l" + ("i" + ("_" + y))))))
  {
    assert "<l>__" == "<l>" + "__";
    assert "CFPCcli_" == "CF" + "PCc" + "l" + "i" + "_";
  }

  lemma LongTemplatedName(f: string, namespace: Option<string>)
    requires |f| > 0 && f[0] != '_' && '<' !in f
    ensures DemangleName(f + "<l>", namespace) == Ok(f + "<long>")
  {
    PrimitiveArg('l');
    TemplatedKept(f, "l", namespace);
    LongTemplate(f);
  }

  lemma LongTemplate(f: string)
    ensures f + "<" + "l" + ">" == f + "<l>"
    ensures f + "<" + "long" + ">" == f + "<long>"
  {
    assert "<" + "l" + ">" == "<l>";
    assert "<" + "long" + ">" == "<long>";
  }

  /** `PCcli_<r>`: a pointer to const char, a long and an int, returning `r`. */
  lemma ReturningArgs(y: string, r: string)
    requires Node(y) == Ok(Decoded(r, ""))
    ensures FuncArgs("PCc" + ("l" + ("i" + ("_" + y)))) == Ok(Signature(["const char*", "long", "int"], Some(r), ""))
  {
    CharLongIntLists();
    LongIntReturning(y, r);
    ConstChar("l" + ("i" + ("_" + y)));
    ArgsCons("PCc" + ("l" + ("i" + ("_" + y))), Decoded("const char*", "l" + ("i" + ("_" + y))), Signature(["long", "int"], Some(r), ""));
  }

  lemma LongIntReturning(y: string, r: string)
    requires Node(y) == Ok(Decoded(r, ""))
    ensures FuncArgs("l" + ("i" + ("_" + y))) == Ok(Signature(["long", "int"], Some(r), ""))
  {
    CharLongIntLists();
    IntReturning(y, r);
    Primitive('l', "i" + ("_" + y));
    ArgsCons("l" + ("i" + ("_" + y)), Decoded("long", "i" + ("_" + y)), Signature(["int"], Some(r), ""));
  }

  lemma IntReturning(y: string, r: string)
    requires Node(y) == Ok(Decoded(r, ""))
    ensures FuncArgs("i" + ("_" + y)) == Ok(Signature(["int"], Some(r), ""))
  {
    CharLongIntLists();
    ArgsReturn(y, Decoded(r, ""));
    Primitive('i', "_" + y);
    ArgsCons("i" + ("_" + y), Decoded("int", "_" + y), Signature([], Some(r), ""));
  }

  lemma CharLongIntLists()
    ensures ["int"] + [] == ["int"]
    ensures ["long"] + ["int"] == ["long", "int"]
    ensures ["const char*"] + ["long", "int"] == ["const char*", "long", "int"]
  {
  }

  lemma FindElementText(c: string, f: string, r: string)
    ensures RetPrefix(Some(r)) + (match Some(c) case None => "" case Some(n) => n + "::") + (f + "<long>")
              + ("(" + Join(["const char*", "long", "int"], ", ") + ")" + (if true then " const" else ""))
            == r + " " + c + "::" + f + "<long>(const char*, long, int) const"
  {
    JoinThree("const char*", "long", "int", ", ");
    FindElementArgs();
    FindElementTail(r + " " + c + "::" + f);
  }

  lemma FindElementArgs()
    ensures "(" + ("const char*" + ", " + "long" + ", " + "int") + ")" + " const" == "(const char*, long, int) const"
  {
  }

  lemma FindElementTail(x: string)
    ensures x + "<long>" + "(const char*, long, int) const" == x + "<long>(const char*, long, int) const"
  {
    assert "<long>" + "(const char*, long, int) const" == "<long>(const char*, long, int) const";
  }

  lemma JoinThree(a: string, b: string, c: string, sep: string)
    ensures Join([a, b, c], sep) == a + sep + b + sep + c
  {
    assert [a, b, c][1..] == [b, c];
    JoinTwo(b, c, sep);
  }

  lemma {:induction false} IntegralFromChars(s: string)
    ensures IntegralFrom(s) <==> forall i :: 0 <= i < |s| ==> s[i] == '-' || IsDigit(s[i])
    decreases |s|
  {
    if |s| > 0 {
      IntegralFromChars(s[1..]);
      assert forall i :: 1 <= i < |s| ==> s[i] == s[1..][i - 1];
    }
  }

  /** A negative number is an integral template argument, kept as it is. */
  lemma NegativeArg(k: nat)
    ensures Flat("-" + NatToString(k)) && IsIntegral("-" + NatToString(k))
    ensures ArgRenders("-" + NatToString(k)) && RenderedArg("-" + NatToString(k)) == "-" + NatToString(k)
  {
    NatToStringDigits(k);
    var d := NatToString(k);
    var s := "-" + d;
    assert forall i :: 1 <= i < |s| ==> s[i] == d[i - 1];
    assert forall i :: 0 <= i < |d| ==> IsDigit(d[i]);
    IntegralFromChars(s);
  }

  /** A spelled name as a template argument renders as the name. */
  lemma SpelledArg(c: string)
    requires Plain(c)
    ensures Flat(Spelled(c)) && ArgRenders(Spelled(c)) && RenderedArg(Spelled(c)) == c
  {
    var d := NatToString(|c|);
    NatToStringDigits(|c|);
    assert forall i :: 0 <= i < |d| ==> IsDigit(d[i]);
    IntegralFromChars(Spelled(c));
    assert Spelled(c)[|d|] == c[0];
    SpelledNode(c, "");
    EmptyRight(Spelled(c));
  }

  /** The template `t<c, -k>` of a spelled class and a negative number. */
  lemma NegativeTemplate(t: string, c: string, k: nat)
    requires Plain(t) && Plain(c)
    ensures var tmpl := t + "<" + Spelled(c) + ",-" + NatToString(k) + ">";
            && TryDemangleTemplates(tmpl) == Ok(t + "<" + c + ", " + ("-" + NatToString(k)) + ">")
            && |tmpl| > 0 && !IsDigit(tmpl[0]) && '_' !in tmpl
  {
    var n := NatToString(k);
    SpelledArg(c);
    NegativeArg(k);
    TwoTemplateArgs(t, Spelled(c), "-" + n);
    NegativeSplit(t, Spelled(c), n);
    DigitsNoUnderscore(k);
    SpelledLead(c, "");
  }

  lemma NegativeSplit(t: string, x: string, n: string)
    ensures t + "<" + x + ",-" + n + ">" == t + "<" + x + "," + ("-" + n) + ">"
  {
    assert ",-" == "," + "-";
  }

  /** `"end__Q27JGadget27TLinkList<10JUTConsole,-24>Fv"`: a method of a class
      template instance whose second argument is a negative number. */
  lemma NegativeTemplateArgument(m: string, ns: string, t: string, c: string, k: nat)
    requires |m| > 0 && m[0] != '_' && '<' !in m
    requires Plain(ns) && Plain(t) && Plain(c)
    ensures DemangleSymbol(m + "__Q2" + Spelled(ns) + Spelled(t + "<" + Spelled(c) + ",-" + NatToString(k) + ">") + "Fv")
              == Ok(ns + "::" + t + "<" + c + ", -" + NatToString(k) + ">::" + m + "(void)")
  {
    var n := NatToString(k);
    var tmpl := t + "<" + Spelled(c) + ",-" + n + ">";
    var tv := t + "<" + c + ", " + ("-" + n) + ">";
    var rest := "Q2" + Spelled(ns) + Spelled(tmpl) + "Fv";
    NegativeTemplate(t, c, k);
    SpelledLead(tmpl, "");
    QualifiedLeadWith(ns, Spelled(tmpl), "Fv");
    UnderscoreFree(rest);
    QualifiedSplit4(m, Spelled(ns), Spelled(tmpl), "Fv");
    SplitAtLast(m, rest);
    QualifiedTemplateVoidHeader(ns, tmpl, tv);
    VoidArgs();
    KeptName(m, Some(ns + "::" + tv));
    FunctionSymbol(m, rest, Header(false, true, Some(ns + "::" + tv), "v"), Signature(["void"], None, ""), m);
    VoidMethodText(ns + "::" + tv, m);
    NegativeTemplateText(ns, t, c, n, m);
  }

  lemma QualifiedTemplateVoidHeader(ns: string, tmpl: string, tv: string)
    requires Plain(ns) && |tmpl| > 0 && !IsDigit(tmpl[0]) && TryDemangleTemplates(tmpl) == Ok(tv)
    ensures ScanHeader("Q2" + Spelled(ns) + Spelled(tmpl) + "Fv", false, None)
              == Ok(Header(false, true, Some(ns + "::" + tv), "v"))
  {
    VoidTail("Q2" + Spelled(ns) + Spelled(tmpl));
    QualifiedTemplateHeader(ns, tmpl, tv, "v");
  }

  lemma VoidTail(x: string)
    ensures x + "Fv" == x + ("F" + "v")
  {
    assert "F" + "v" == "Fv";
  }

  /** The header `Q2<ns><template>F`. */
  lemma QualifiedTemplateHeader(ns: string, tmpl: string, tv: string, args: string)
    requires Plain(ns) && |tmpl| > 0 && !IsDigit(tmpl[0]) && TryDemangleTemplates(tmpl) == Ok(tv)
    ensures ScanHeader("Q2" + Spelled(ns) + Spelled(tmpl) + ("F" + args), false, None)
              == Ok(Header(false, true, Some(ns + "::" + tv), args))
  {
    SpelledTemplate(tmpl, tv, "F" + args);
    QualifiedNode(ns, Spelled(tmpl), tv, "F" + args);
    QualifiedHead(Spelled(ns), Spelled(tmpl), "F" + args);
    HeaderMethod("Q2" + Spelled(ns) + Spelled(tmpl) + ("F" + args), ns + "::" + tv, args);
  }

  lemma NegativeTemplateText(ns: string, t: string, c: string, n: string, m: string)
    ensures ns + "::" + (t + "<" + c + ", " + ("-" + n) + ">") + "::" + m + "(void)"
            == ns + "::" + t + "<" + c + ", -" + n + ">::" + m + "(void)"
  {
    assert ", " + "-" == ", -";
    assert ">" + "::" == ">::";
  }

  /** `"__ct<i>__Q29JGeometry8TVec3<f>Fiii_Pv"`: a templated constructor of a
      class template instance inside a namespace, with a return type. */
  lemma TemplatedConstructorInTemplate(ns: string, t: string)
    requires Plain(ns) && Plain(t)
    ensures DemangleSymbol("__ct<i>__Q2" + Spelled(ns) + Spelled(t + "<f>") + "Fiii_Pv")
              == Ok("void* " + ns + "::" + t + "<float>::" + t + "<int>(int, int, int)")
  {
    var tmpl := t + "<f>";
    var tv := t + "<float>";
    var args := "i" + ("i" + ("i" + ("_" + ("P" + "v"))));
    var head := "Q2" + Spelled(ns) + Spelled(tmpl);
    var rest := head + ("F" + args);
    PrimitiveArg('f');
    OneTemplateArg(t, "f");
    FloatTemplate(t);
    SpelledLead(tmpl, "");
    QualifiedLeadWith(ns, Spelled(tmpl), "F" + args);
    IntsRest(head);
    IntsSplit(Spelled(ns), Spelled(tmpl));
    SplitAtLast("__ct<i>", rest);
    QualifiedTemplateHeader(ns, tmpl, tv, args);
    IntsReturningPointer();
    IntConstructorName(ns, t);
    FunctionSymbol("__ct<i>", rest, Header(false, true, Some(ns + "::" + tv), args),
                   Signature(["int", "int", "int"], Some("void*"), ""), t + "<int>");
    IntsText(ns, t);
  }

  lemma IntsRest(x: string)
    requires '_' !in x
    ensures NoDoubleUnderscore(x + ("F" + ("i" + ("i" + ("i" + ("_" + ("P" + "v")))))))
  {
    assert x + ("F" + ("i" + ("i" + ("i" + ("_" + ("P" + "v")))))) == x + "Fiii" + "_" + "Pv";
    OneUnderscore(x + "Fiii", "Pv");
  }

  lemma IntsSplit(x: string, y: string)
    ensures "__ct<i>__Q2" + x + y + "Fiii_Pv"
              == "__ct<i>" + "__" + ("Q2" + x + y + ("F" + ("i" + ("i" + ("i" + ("_" + ("P" + "v")))))))
  {
    assert "__ct<i>__Q2" == "__ct<i>" + "__" + "Q2";
    assert "Fiii_Pv" == "F" + ("i" + ("i" + ("i" + ("_" + ("P" + "v")))));
  }

  /** `iii_Pv`: three ints, returning a pointer to void. */
  lemma IntsReturningPointer()
    ensures FuncArgs("i" + ("i" + ("i" + ("_" + ("P" + "v"))))) == Ok(Signature(["int", "int", "int"], Some("void*"), ""))
  {
    Primitive('v', "");
    assert ['v'] + "" == "v";
    Pointer("v", Decoded("void", ""));
    assert "void" + "*" == "void*";
    IntReturning("P" + "v", "void*");
    IntsLists();
    Primitive('i', "i" + ("_" + ("P" + "v")));
    ArgsCons("i" + ("i" + ("_" + ("P" + "v"))), Decoded("int", "i" + ("_" + ("P" + "v"))), Signature(["int"], Some("void*"), ""));
    Primitive('i', "i" + ("i" + ("_" + ("P" + "v"))));
    ArgsCons("i" + ("i" + ("i" + ("_" + ("P" + "v")))), Decoded("int", "i" + ("i" + ("_" + ("P" + "v")))),
             Signature(["int", "int"], Some("void*"), ""));
  }

  lemma IntsLists()
    ensures ["int"] + ["int"] == ["int", "int"]
    ensures ["int"] + ["int", "int"] == ["int", "int", "int"]
  {
  }

  /** `__ct<i>` in `ns::t<float>` names `t<int>`. */
  lemma IntConstructorName(ns: string, t: string)
    requires Plain(t)
    ensures DemangleName("__ct<i>", Some(ns + "::" + (t + "<float>"))) == Ok(t + "<int>")
  {
    PrimitiveArg('i');
    TemplatedConstructorOf(ns + "::" + (t + "<float>"), "i");
    QualifiedFloatClassName(ns, t);
    IntTemplate(t);
  }

  lemma QualifiedFloatClassName(ns: string, t: string)
    requires '<' !in t && ':' !in t
    ensures ClassName(ns + "::" + (t + "<float>")) == t
  {
    FloatColonFree(t);
    ClassNameLast(ns, t + "<float>");
    TemplatedKeepsName(t, "float");
    FloatTemplate(t);
  }

  lemma FloatColonFree(t: string)
    requires ':' !in t
    ensures ':' !in t + "<float>"
  {
  }

  lemma IntTemplate(x: string)
    ensures "__ct<" + "i" + ">" == "__ct<i>"
    ensures x + "<" + "int" + ">" == x + "<int>"
  {
    assert "<" + "int" + ">" == "<int>";
  }

  lemma IntsText(ns: string, t: string)
    ensures RetPrefix(Some("void*")) + (match Some(ns + "::" + (t + "<float>")) case None => "" case Some(n) => n + "::")
              + (t + "<int>") + ("(" + Join(["int", "int", "int"], ", ") + ")" + (if false then " const" else ""))
            == "void* " + ns + "::" + t + "<float>::" + t + "<int>(int, int, int)"
  {
    JoinThree("int", "int", "int", ", ");
    IntsArgsText();
    SpacedPointer();
    FloatColons(ns + "::" + t);
    IntsTail("void* " + ns + "::" + t + "<float>::" + t);
  }

  lemma IntsArgsText()
    ensures "(" + ("int" + ", " + "int" + ", " + "int") + ")" + "" == "(int, int, int)"
  {
  }

  lemma SpacedPointer()
    ensures "void*" + " " == "void* "
  {
  }

  lemma FloatColons(x: string)
    ensures x + "<float>" + "::" == x + "<float>::"
  {
    assert "<float>" + "::" == "<float>::";
  }

  lemma IntsTail(x: string)
    ensures x + "<int>" + "(int, int, int)" == x + "<int>(int, int, int)"
  {
    assert "<int>" + "(int, int, int)" == "<int>(int, int, int)";
  }

  /** `PCvPv_v`: a pointer to const void and a pointer to void, returning
      void. */
  lemma VoidPointersArgs()
    ensures FuncArgs("PC" + ("v" + ("P" + ("v" + ("_" + "v")))))
              == Ok(Signature(["const void*", "void*"], Some("void"), ""))
  {
    Primitive('v', "");
    EmptyRight("v");
    ArgsReturn("v", Decoded("void", ""));
    Primitive('v', "_" + "v");
    Pointer("v" + ("_" + "v"), Decoded("void", "_" + "v"));
    VoidPointerLists();
    ArgsCons("P" + ("v" + ("_" + "v")), Decoded("void*", "_" + "v"), Signature([], Some("void"), ""));
    Primitive('v', "P" + ("v" + ("_" + "v")));
    ConstPointer("v" + ("P" + ("v" + ("_" + "v"))), Decoded("void", "P" + ("v" + ("_" + "v"))));
    ArgsCons("PC" + ("v" + ("P" + ("v" + ("_" + "v")))), Decoded("const void*", "P" + ("v" + ("_" + "v"))),
             Signature(["void*"], Some("void"), ""));
  }

  lemma VoidPointerLists()
    ensures "void" + "*" == "void*" && "const " + "void" + "*" == "const void*"
    ensures ["void*"] + [] == ["void*"] && ["const void*"] + ["void*"] == ["const void*", "void*"]
  {
  }

  /** `M<o>FPCvPv_v` as a template argument: a pointer to a member function
      of `o`. */
  lemma MemberArg(o: string)
    requires Plain(o)
    ensures var a := "M" + Spelled(o) + ("F" + ("PC" + ("v" + ("P" + ("v" + ("_" + "v"))))));
            Flat(a) && ArgRenders(a) && RenderedArg(a) == "void (" + o + "::*)(const void*, void*)"
  {
    var args := "PC" + ("v" + ("P" + ("v" + ("_" + "v"))));
    var x := Spelled(o) + ("F" + args);
    SpelledNode(o, "F" + args);
    VoidPointersArgs();
    NodeMember(x, false, args);
    MemberArgShape(Spelled(o), "F" + args);
    SpelledArg(o);
    MemberArgFlat(Spelled(o));
    MemberText(o);
  }

  lemma MemberArgShape(x: string, y: string)
    ensures "M" + x + y == "M" + (x + y) && ("M" + x + y)[0] == 'M'
  {
  }

  lemma MemberArgFlat(x: string)
    requires '<' !in x && '>' !in x && ',' !in x
    ensures Flat("M" + x + ("F" + ("PC" + ("v" + ("P" + ("v" + ("_" + "v")))))))
  {
  }

  lemma MemberText(o: string)
    ensures RetPrefix(Some("void")) + "(" + o + "::*)(" + Join(["const void*", "void*"], ", ") + ")"
              + (if false then " const" else "")
            == "void (" + o + "::*)(const void*, void*)"
  {
    JoinTwo("const void*", "void*", ", ");
    MemberTextHead();
    MemberTextTail(o);
  }

  lemma MemberTextHead()
    ensures "void" + " " + "(" == "void ("
  {
  }

  lemma MemberTextTail(o: string)
    ensures "void (" + o + "::*)(" + ("const void*" + ", " + "void*") + ")" + ""
            == "void (" + o + "::*)(const void*, void*)"
  {
    assert "::*)(" + ("const void*" + ", " + "void*") + ")" + "" == "::*)(const void*, void*)";
  }

  /** `P<o>` as a template argument: a pointer to `o`. */
  lemma PointerArg(o: string)
    requires Plain(o)
    ensures Flat("P" + Spelled(o)) && ArgRenders("P" + Spelled(o)) && RenderedArg("P" + Spelled(o)) == o + "*"
  {
    SpelledArg(o);
    SpelledPointer(o, "");
    EmptyRight("P" + Spelled(o));
    assert ("P" + Spelled(o))[0] == 'P';
  }

  /** The template of the `clone` example: a pointer and a pointer to a
      member function. */
  lemma FunctorTemplate(t: string, o: string)
    requires Plain(t) && Plain(o)
    ensures var tmpl := t + "<P" + Spelled(o) + ",M" + Spelled(o) + "FPCvPv_v>";
            && TryDemangleTemplates(tmpl)
                 == Ok(t + "<" + (o + "*") + ", " + ("void (" + o + "::*)(const void*, void*)") + ">")
            && |tmpl| > 0 && !IsDigit(tmpl[0])
  {
    var a2 := "M" + Spelled(o) + ("F" + ("PC" + ("v" + ("P" + ("v" + ("_" + "v"))))));
    PointerArg(o);
    MemberArg(o);
    MemberArgShape(Spelled(o), "F" + ("PC" + ("v" + ("P" + ("v" + ("_" + "v"))))));
    TwoTemplateArgs(t, "P" + Spelled(o), a2);
    FunctorSplit(t, Spelled(o));
  }

  lemma FunctorSplit(t: string, x: string)
    ensures t + "<P" + x + ",M" + x + "FPCvPv_v>"
            == t + "<" + ("P" + x) + "," + ("M" + x + ("F" + ("PC" + ("v" + ("P" + ("v" + ("_" + "v"))))))) + ">"
  {
    assert "<P" == "<" + "P";
    assert ",M" == "," + "M";
    assert "FPCvPv_v>" == "F" + ("PC" + ("v" + ("P" + ("v" + ("_" + "v"))))) + ">";
  }

  /** The header `Q2<ns><template>CF`. */
  lemma QualifiedTemplateConstHeader(ns: string, tmpl: string, tv: string, args: string)
    requires Plain(ns) && |tmpl| > 0 && !IsDigit(tmpl[0]) && TryDemangleTemplates(tmpl) == Ok(tv)
    ensures ScanHeader("Q2" + Spelled(ns) + Spelled(tmpl) + ("CF" + args), false, None)
              == Ok(Header(true, true, Some(ns + "::" + tv), args))
  {
    SpelledTemplate(tmpl, tv, "CF" + args);
    QualifiedNode(ns, Spelled(tmpl), tv, "CF" + args);
    QualifiedHead(Spelled(ns), Spelled(tmpl), "CF" + args);
    HeaderConstMethod("Q2" + Spelled(ns) + Spelled(tmpl) + ("CF" + args), ns + "::" + tv, args);
  }

  /** The rest of the `clone` example has one `_`, inside the template. */
  lemma FunctorRest(ns: string, t: string, o: string, h: string)
    requires Plain(ns) && Plain(t) && Plain(o) && Plain(h)
    ensures var tmpl := t + "<P" + Spelled(o) + ",M" + Spelled(o) + "FPCvPv_v>";
            var rest := "Q2" + Spelled(ns) + Spelled(tmpl) + ("CF" + ("P" + Spelled(h)));
            NoDoubleUnderscore(rest) && |rest| > 0 && rest[0] == 'Q'
  {
    var tmpl := t + "<P" + Spelled(o) + ",M" + Spelled(o) + "FPCvPv_v>";
    SpelledLead(ns, "");
    SpelledLead(o, "");
    SpelledLead(h, "");
    DigitsNoUnderscore(|tmpl|);
    FunctorRegroup(Spelled(ns), NatToString(|tmpl|), t, Spelled(o), Spelled(h));
    OneUnderscore("Q2" + Spelled(ns) + NatToString(|tmpl|) + t + "<P" + Spelled(o) + ",M" + Spelled(o) + "FPCvPv",
                  "v>CFP" + Spelled(h));
    QualifiedHead(Spelled(ns), Spelled(tmpl), "CF" + ("P" + Spelled(h)));
  }

  lemma FunctorRegroup(p: string, n: string, t: string, so: string, sh: string)
    ensures "Q2" + p + (n + (t + "<P" + so + ",M" + so + "FPCvPv_v>")) + ("CF" + ("P" + sh))
            == ("Q2" + p + n + t + "<P" + so + ",M" + so + "FPCvPv") + "_" + ("v>CFP" + sh)
  {
    assert "FPCvPv_v>" == "FPCvPv" + "_" + "v>";
    assert "v>CFP" == "v>" + "CF" + "P";
  }

  /** `"clone__Q22MR63FunctorV0M<P18SimpleBreakableObj,M18SimpleBreakableObjFPCvPv_v>CFP7JKRHeap"`:
      a const method of a class template instance whose arguments are a
      pointer and a pointer to a member function. */
  lemma FunctorMethod(m: string, ns: string, t: string, o: string, h: string)
    requires |m| > 0 && m[0] != '_' && '<' !in m
    requires Plain(ns) && Plain(t) && Plain(o) && Plain(h)
    ensures DemangleSymbol(m + "__Q2" + Spelled(ns) + Spelled(t + "<P" + Spelled(o) + ",M" + Spelled(o) + "FPCvPv_v>")
                             + "CFP" + Spelled(h))
              == Ok(ns + "::" + t + "<" + o + "*, void (" + o + "::*)(const void*, void*)>::" + m + "(" + h + "*) const")
  {
    var tmpl := t + "<P" + Spelled(o) + ",M" + Spelled(o) + "FPCvPv_v>";
    var tv := t + "<" + (o + "*") + ", " + ("void (" + o + "::*)(const void*, void*)") + ">";
    var arg := "P" + Spelled(h);
    var rest := "Q2" + Spelled(ns) + Spelled(tmpl) + ("CF" + arg);
    FunctorTemplate(t, o);
    FunctorRest(ns, t, o, h);
    ConstMethodSplit(m, Spelled(ns), Spelled(tmpl), Spelled(h));
    SplitAtLast(m, rest);
    QualifiedTemplateConstHeader(ns, tmpl, tv, arg);
    SpelledPointer(h, "");
    EmptyRight(arg);
    SpelledLead(h, "");
    SingleArg(arg, h + "*");
    KeptName(m, Some(ns + "::" + tv));
    FunctionSymbol(m, rest, Header(true, true, Some(ns + "::" + tv), arg), Signature([h + "*"], None, ""), m);
    ConstMethodText(ns + "::" + tv, m, h);
    FunctorText(ns, t, o);
  }

  lemma FunctorText(ns: string, t: string, o: string)
    ensures ns + "::" + (t + "<" + (o + "*") + ", " + ("void (" + o + "::*)(const void*, void*)") + ">") + "::"
            == ns + "::" + t + "<" + o + "*, void (" + o + "::*)(const void*, void*)>::"
  {
    assert "*" + ", " + "void (" == "*, void (";
    assert "::*)(const void*, void*)" + ">" + "::" == "::*)(const void*, void*)>::";
  }
}
