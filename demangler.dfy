/** The CodeWarrior (cfront-style) C++ symbol demangler of `Tools/demangler.py`.

    Every decoding step takes the remaining input and yields the rendered
    text together with what it left unread, or the exception Python would
    raise.  The loops of the original, which rebind `rest` step by step,
    become recursion over the remaining input; the measures used for
    termination are the length of that input, then the rank of the step. */
module Demangler {
  import opened Failures
  import opened PyStr

  /** Operator and compiler-generated member names. */
  const SpecialNameTable: map<string, string> := map[
    "__pl" := "operator+", "__mi" := "operator-", "__ml" := "operator*", "__dv" := "operator/",
    "__md" := "operator%", "__er" := "operator^", "__adv" := "operator/=", "__ad" := "operator&",
    "__or" := "operator|", "__co" := "operator~", "__nt" := "operator!", "__as" := "operator=",
    "__lt" := "operator<", "__gt" := "operator>", "__apl" := "operator+=", "__ami" := "operator-=",
    "__amu" := "operator*=", "__amd" := "operator%=", "__aer" := "operator^=", "__aad" := "operator&=",
    "__aor" := "operator|=", "__ls" := "operator<<", "__rs" := "operator>>", "__ars" := "operator>>=",
    "__als" := "operator<<=", "__eq" := "operator==", "__ne" := "operator!=", "__le" := "operator<=",
    "__ge" := "operator>=", "__aa" := "operator&&", "__oo" := "operator||", "__pp" := "operator++",
    "__mm" := "operator--", "__cl" := "operator()", "__vc" := "operator[]", "__rf" := "operator->",
    "__cm" := "operator,", "__rm" := "operator->*", "__vt" := "VTable"
  ]

  /** One-letter codes of the built-in types. */
  const PrimitiveTypes: map<char, string> := map[
    'b' := "bool", 'c' := "char", 'w' := "wchar_t", 's' := "short", 'i' := "int", 'l' := "long",
    'x' := "long long", 'f' := "float", 'd' := "double", 'v' := "void", 'e' := "..."
  ]

  /** Qualifiers written before a type. */
  const NodePrefixes: map<char, string> := map['C' := "const", 'U' := "unsigned", 'S' := "signed"]

  /** Declarators written after a type. */
  const NodeSuffixes: map<char, string> := map['P' := "*", 'R' := "&"]

  /** A decoded value and the input left after it. */
  datatype Decoded<T> = Decoded(value: T, rest: string)

  /** The qualifiers read in front of a node, in the order they were met. */
  datatype Qualifiers = Qualifiers(pre: seq<string>, post: seq<string>, rest: string)

  /** An argument list, the optional return type after `_`, and what is left. */
  datatype Signature = Signature(args: seq<string>, ret: Option<string>, rest: string)

  /** What the top-level loop of `demangle_symbol` gathers before the
      argument list. */
  datatype Header = Header(isConst: bool, hasFunc: bool, namespace: Option<string>, rest: string)

  predicate IsSuffix(t: string, s: string) {
    |t| <= |s| && t == s[|s| - |t|..]
  }

  predicate IsProperSuffix(t: string, s: string) {
    |t| < |s| && IsSuffix(t, s)
  }

  /** `is_integral(node)`: non-empty, and only `-` and digits. */
  predicate IsIntegral(node: string) {
    |node| > 0 && IntegralFrom(node)
  }

  /** The character loop of `is_integral`, returning early at the first
      character that is neither `-` nor a digit. */
  predicate IntegralFrom(s: string) {
    |s| == 0 || ((s[0] == '-' || IsDigit(s[0])) && IntegralFrom(s[1..]))
  }

  /** `separate_template(node)`: the text before the first `<`, and the rest. */
  function SeparateTemplate(node: string): (r: (string, string))
    ensures r.0 + r.1 == node
    ensures '<' !in r.0
    ensures r.1 == "" || r.1[0] == '<'
  {
    var i := Find(node, '<');
    assert node == node[..i] + node[i..];
    (node[..i], node[i..])
  }

  /** The split is unique: a `<`-free head and a tail that is empty or
      starts with `<`. */
  lemma SeparateTemplateUnique(head: string, tail: string)
    requires '<' !in head
    requires tail == "" || tail[0] == '<'
    ensures SeparateTemplate(head + tail) == (head, tail)
  {
    var node := head + tail;
    var r := SeparateTemplate(node);
    assert forall j :: 0 <= j < |head| ==> node[j] == head[j] && head[j] in head;
    assert forall j :: 0 <= j < |r.0| ==> node[j] == r.0[j] && r.0[j] in r.0;
    assert |r.1| > 0 ==> r.1[0] == node[|r.0|];
    assert |tail| > 0 ==> node[|head|] == tail[0];
    assert |r.0| == |head|;
    assert r.0 == node[..|r.0|];
  }

  /** A name followed by a template suffix is what `separate_template`
      returns for it. */
  lemma TemplatedKeepsName(name: string, args: string)
    requires '<' !in name
    ensures SeparateTemplate(name + "<" + args + ">").0 == name
  {
    assert name + "<" + args + ">" == name + ("<" + args + ">");
    SeparateTemplateUnique(name, "<" + args + ">");
  }

  /** The splitting loop of `try_demangle_templates`: arguments end at a `,`
      or `>` met at nesting level 1; an argument left open at the end of the
      text is dropped. */
  function SplitTemplateArgs(t: string, level: int, current: string, types: seq<string>): (r: seq<string>)
    ensures forall x :: x in r ==> x in types || |x| <= |current| + |t|
    decreases |t|
  {
    if |t| == 0 then types
    else
      var c := t[0];
      if c == '<' then
        if level + 1 == 1 then SplitTemplateArgs(t[1..], level + 1, current, types)
        else SplitTemplateArgs(t[1..], level + 1, current + [c], types)
      else if c == '>' then
        if level == 1 then SplitTemplateArgs(t[1..], level, "", types + [current])
        else SplitTemplateArgs(t[1..], level - 1, current + [c], types)
      else if c == ',' && level == 1 then SplitTemplateArgs(t[1..], level, "", types + [current])
      else SplitTemplateArgs(t[1..], level, current + [c], types)
  }

  /** The template arguments of a template suffix `<…>`; each is shorter than
      the suffix, which is what bounds the recursion into them. */
  function TemplateArgs(template: string): (r: seq<string>)
    ensures |template| > 0 && template[0] == '<' ==> forall x :: x in r ==> |x| < |template|
  {
    SplitTemplateArgs(template, 0, "", [])
  }

  /** `(' '.join(pre) + ' ' if pre) + node + ''.join(post)`. */
  function Render(pre: seq<string>, node: string, post: seq<string>): string {
    (if |pre| > 0 then Join(pre, " ") + " " else "") + node + Join(post, "")
  }

  /** `f"{return_type} "` when there is a return type. */
  function RetPrefix(ret: Option<string>): string {
    match ret
    case None => ""
    case Some(t) => t + " "
  }

  /** The prefix/suffix loop at the head of `demangle_node`. */
  function ScanQualifiers(s: string): (r: Result<Qualifiers>)
    ensures r.Ok? ==> IsSuffix(r.value.rest, s) && |r.value.rest| > 0
    ensures r.Ok? ==> r.value.rest[0] !in NodePrefixes && r.value.rest[0] !in NodeSuffixes
    ensures r.Err? ==> r.failure == IndexError
  {
    if |s| == 0 then Err(IndexError)
    else if s[0] in NodePrefixes then
      var q :- ScanQualifiers(s[1..]);
      Ok(q.(pre := [NodePrefixes[s[0]]] + q.pre))
    else if s[0] in NodeSuffixes then
      var q :- ScanQualifiers(s[1..]);
      Ok(q.(post := [NodeSuffixes[s[0]]] + q.post))
    else Ok(Qualifiers([], [], s))
  }

  /** `demangle_node(rest)`: one node, wrapped in its qualifiers.  A function
      type whose only prefix is `const` moves it behind the signature. */
  function Node(s: string): (r: Result<Decoded<string>>)
    ensures r.Ok? ==> IsProperSuffix(r.value.rest, s)
    decreases |s|, 2, 0
  {
    var q :- ScanQualifiers(s);
    var body :- NodeBody(q.rest);
    var constCall := q.rest[0] == 'F' && q.pre == ["const"];
    var pre := if constCall then [] else q.pre;
    var post := if constCall then q.post + [" const"] else q.post;
    Ok(Decoded(Render(pre, body.value, post), body.rest))
  }

  /** The dispatch of `demangle_node` on the character after the qualifiers. */
  function NodeBody(t: string): (r: Result<Decoded<string>>)
    requires |t| > 0
    ensures r.Ok? ==> IsProperSuffix(r.value.rest, t)
    decreases |t|, 1, 0
  {
    var c := t[0];
    if c in PrimitiveTypes then Ok(Decoded(PrimitiveTypes[c], t[1..]))
    else if c == 'Q' then QualifiedNode(t)
    else if c == 'A' then ArrayNode(t)
    else if c == 'F' then FunctionNode(t)
    else if c == 'M' then MemberNode(t)
    else if IsDigit(c) then LiteralNode(t)
    else Err(DemanglerException("Error! Invalid node: " + t))
  }

  /** `Q<d>`: `d` nodes joined by `::`.  `int(rest[1])` accepts exactly one
      decimal digit. */
  function QualifiedNode(t: string): (r: Result<Decoded<string>>)
    requires |t| > 0 && t[0] == 'Q'
    ensures r.Ok? ==> IsProperSuffix(r.value.rest, t)
    decreases |t|, 0, 0
  {
    if |t| < 2 then Err(IndexError)
    else if !IsDigit(t[1]) then Err(ValueError)
    else
      var parts :- QComponents(DigitOf(t[1]), t[2..]);
      Ok(Decoded(Join(parts.value, "::"), parts.rest))
  }

  /** The `for _ in range(depth)` loop of the `Q` case. */
  function QComponents(n: nat, s: string): (r: Result<Decoded<seq<string>>>)
    ensures r.Ok? ==> |r.value.value| == n && IsSuffix(r.value.rest, s)
    decreases |s|, 3, n
  {
    if n == 0 then Ok(Decoded([], s))
    else
      var first :- Node(s);
      var others :- QComponents(n - 1, first.rest);
      Ok(Decoded([first.value] + others.value, others.rest))
  }

  /** Index of the first `_` in `s`, or `|s|`. */
  function UnderscoreIndex(s: string): (i: nat)
    ensures i <= |s|
  {
    Find(s, '_')
  }

  /** `A<count>_<node>`: `node[count]`, the count passed through `int()`. */
  function ArrayNode(t: string): (r: Result<Decoded<string>>)
    requires |t| > 0 && t[0] == 'A'
    ensures r.Ok? ==> IsProperSuffix(r.value.rest, t)
    decreases |t|, 0, 0
  {
    var u := t[1..];
    var k := UnderscoreIndex(u);
    if k == |u| then Err(IndexError)
    else
      var count :- ParseInt(u[..k], 10);
      var element :- Node(u[k + 1..]);
      Ok(Decoded(element.value + "[" + IntToString(count) + "]", element.rest))
  }

  /** `F<args>[_<ret>]`: `ret ()(args)`. */
  function FunctionNode(t: string): (r: Result<Decoded<string>>)
    requires |t| > 0 && t[0] == 'F'
    ensures r.Ok? ==> IsProperSuffix(r.value.rest, t)
    decreases |t|, 0, 0
  {
    var sig :- FuncArgs(t[1..]);
    Ok(Decoded(RetPrefix(sig.ret) + "()(" + Join(sig.args, ", ") + ")", sig.rest))
  }

  /** `M<class>[C]F<args>[_<ret>]`: a pointer to member function. */
  function MemberNode(t: string): (r: Result<Decoded<string>>)
    requires |t| > 0 && t[0] == 'M'
    ensures r.Ok? ==> IsProperSuffix(r.value.rest, t)
    decreases |t|, 0, 0
  {
    var ns :- Node(t[1..]);
    var u := ns.rest;
    if |u| == 0 then Err(IndexError)
    else
      var isConst := u[0] == 'C';
      var v := if isConst then u[1..] else u;
      if |v| == 0 then Err(IndexError)
      else if v[0] != 'F' then Err(DemanglerException("Error! Expection F after member."))
      else
        var sig :- FuncArgs(v[1..]);
        Ok(Decoded(RetPrefix(sig.ret) + "(" + ns.value + "::*)(" + Join(sig.args, ", ") + ")"
                   + (if isConst then " const" else ""), sig.rest))
  }

  /** Number of leading digits of `s`. */
  function DigitRun(s: string): (k: nat)
    ensures k <= |s| && AllDigits(s[..k])
    ensures k < |s| ==> !IsDigit(s[k])
  {
    if |s| == 0 || !IsDigit(s[0]) then 0
    else
      var k := 1 + DigitRun(s[1..]);
      assert forall i :: 1 <= i < k ==> s[..k][i] == s[1..][..k - 1][i - 1];
      k
  }

  /** `<length><name>`: the next `length` characters (fewer if the input is
      shorter), with their template arguments decoded.  `int()` of the digit
      run is its decimal value. */
  function LiteralNode(t: string): (r: Result<Decoded<string>>)
    requires |t| > 0 && IsDigit(t[0])
    ensures r.Ok? ==> IsProperSuffix(r.value.rest, t)
    decreases |t|, 0, 0
  {
    var k := DigitRun(t);
    if k == |t| then Err(IndexError)
    else
      var length := DigitsValue(t[..k], 10);
      var after := t[k..];
      var take := if length <= |after| then length else |after|;
      var name :- TryDemangleTemplates(after[..take]);
      Ok(Decoded(name, after[take..]))
  }

  /** `demangle_func_args(rest)`: arguments until the input ends or a `_`
      introduces the one return type. */
  function FuncArgs(s: string): (r: Result<Signature>)
    ensures r.Ok? ==> IsSuffix(r.value.rest, s)
    ensures r.Ok? && r.value.rest != "" ==> r.value.ret.Some?
    decreases |s|, 3, 0
  {
    if |s| == 0 then Ok(Signature([], None, s))
    else if s[0] == '_' then
      var ret :- Node(s[1..]);
      Ok(Signature([], Some(ret.value), ret.rest))
    else
      var arg :- Node(s);
      var tail :- FuncArgs(arg.rest);
      Ok(Signature([arg.value] + tail.args, tail.ret, tail.rest))
  }

  /** `try_demangle_templates(node)`: the name, then its template arguments
      rendered and joined by `, `. */
  function TryDemangleTemplates(node: string): (r: Result<string>)
    ensures r.Ok? ==> SeparateTemplate(r.value).0 == SeparateTemplate(node).0
    decreases |node|, 5, 0
  {
    var split := SeparateTemplate(node);
    var name := split.0;
    var template := split.1;
    if template == "" then
      assert name == node;
      Ok(name)
    else
      var rendered :- RenderTemplateArgs(TemplateArgs(template), |node|);
      TemplatedKeepsName(name, Join(rendered, ", "));
      Ok(name + "<" + Join(rendered, ", ") + ">")
  }

  /** The rendering loop of `try_demangle_templates`: an integral argument is
      kept verbatim; any other must decode as one node with nothing left. */
  function RenderTemplateArgs(types: seq<string>, ghost bound: nat): (r: Result<seq<string>>)
    requires forall x :: x in types ==> |x| < bound
    ensures r.Ok? ==> |r.value| == |types|
    decreases bound, 4, |types|
  {
    if |types| == 0 then Ok([])
    else
      var head :-
        if IsIntegral(types[0]) then Ok(types[0])
        else
          var d :- Node(types[0]);
          if d.rest != "" then Err(AssertionError) else Ok(d.value);
      var tail :- RenderTemplateArgs(types[1..], bound);
      Ok([head] + tail)
  }

  /** The class name a constructor or destructor is named after: what follows
      the last `::` of the namespace, without its template arguments. */
  function ClassName(namespace: string): string {
    var i := RFind(namespace, "::");
    var last := if i == -1 then namespace else namespace[i + 2..];
    SeparateTemplate(last).0
  }

  /** `demangle_name(name, namespace)`.  `namespace.rfind` on `None` raises
      `AttributeError`. */
  function DemangleName(name: string, namespace: Option<string>): Result<string> {
    var rendered :- TryDemangleTemplates(name);
    var (plain, template) := SeparateTemplate(rendered);
    if plain in SpecialNameTable then Ok(SpecialNameTable[plain] + template)
    else if plain == "__ct" || plain == "__dt" then
      if namespace.None? then Err(AttributeError)
      else
        var className := ClassName(namespace.value);
        Ok((if plain == "__ct" then className else "~" + className) + template)
    else Ok(plain + template)
  }

  /** The `while len(rest) > 0` loop of `demangle_symbol`: `C` marks a const
      member function, `F` starts the argument list, anything else is a node
      that replaces the namespace read so far. */
  function ScanHeader(s: string, isConst: bool, namespace: Option<string>): (r: Result<Header>)
    ensures r.Ok? && !r.value.hasFunc ==> r.value.rest == ""
    ensures r.Ok? ==> IsSuffix(r.value.rest, s)
    decreases |s|
  {
    if |s| == 0 then Ok(Header(isConst, false, namespace, s))
    else if s[0] == 'F' then Ok(Header(isConst, true, namespace, s[1..]))
    else if s[0] == 'C' then ScanHeader(s[1..], true, namespace)
    else
      var n :- Node(s);
      ScanHeader(n.rest, isConst, Some(n.value))
  }

  /** `demangle_symbol(symbol)`: a symbol without `__` after its first
      character is returned unchanged; otherwise it is split at the last
      `__` into the name and its mangled signature. */
  function DemangleSymbol(symbol: string): Result<string> {
    var nameEnd := RFind(symbol, "__");
    if nameEnd <= 0 then Ok(symbol)
    else DemangleCompound(symbol[..nameEnd], symbol[nameEnd + 2..])
  }

  /** `[ret " "][namespace "::"]name["(" args ")"[" const"]]`; text left after
      the return type fails the `assert`. */
  function DemangleCompound(nameMangled: string, rest: string): Result<string> {
    var h :- ScanHeader(rest, false, None);
    var sig :- if h.hasFunc then FuncArgs(h.rest) else Ok(Signature([], None, h.rest));
    if h.hasFunc && sig.rest != "" then Err(AssertionError)
    else
      var name :- DemangleName(nameMangled, h.namespace);
      Ok(RetPrefix(sig.ret)
         + (match h.namespace case None => "" case Some(ns) => ns + "::")
         + name
         + (if h.hasFunc then "(" + Join(sig.args, ", ") + ")" + (if h.isConst then " const" else "") else ""))
  }
}
