/** Properties of the demangler of `Tools/demangler.py`: how each kind of node
    is rendered, how the pieces compose, the failures, and the worked
    examples of `run_tests`. */
module DemanglerLaws {
  import opened Failures
  import opened PyStr
  import opened Demangler

  // ---------------------------------------------------------------------------
  // Vocabulary

  /** No two adjacent underscores anywhere in `s`. */
  predicate NoDoubleUnderscore(s: string) {
    forall j :: 0 <= j < |s| - 1 ==> !(s[j] == '_' && s[j + 1] == '_')
  }

  /** Every character is a qualifier code (`C`, `U`, `S`, `P` or `R`). */
  predicate QualifierCodes(q: string) {
    forall i :: 0 <= i < |q| ==> q[i] in NodePrefixes || q[i] in NodeSuffixes
  }

  /** The words of the prefix codes of `q`, in the order they occur. */
  function PrefixWords(q: string): seq<string> {
    if |q| == 0 then []
    else (if q[0] in NodePrefixes then [NodePrefixes[q[0]]] else []) + PrefixWords(q[1..])
  }

  /** The marks of the suffix codes of `q`, in the order they occur. */
  function SuffixMarks(q: string): seq<string> {
    if |q| == 0 then []
    else (if q[0] in NodeSuffixes then [NodeSuffixes[q[0]]] else []) + SuffixMarks(q[1..])
  }

  /** A template argument with no bracket and no comma of its own. */
  predicate Flat(a: string) {
    '<' !in a && '>' !in a && ',' !in a
  }

  /** The rest `s` of a template argument, read with `d` of the argument's
      own brackets still open: every `>` closes one of them, a `,` only
      occurs inside one, and all of them are closed at the end. */
  predicate BalancedFrom(s: string, d: nat)
    decreases |s|
  {
    if |s| == 0 then d == 0
    else if s[0] == '<' then BalancedFrom(s[1..], d + 1)
    else if s[0] == '>' then d > 0 && BalancedFrom(s[1..], d - 1)
    else if s[0] == ',' then d > 0 && BalancedFrom(s[1..], d)
    else BalancedFrom(s[1..], d)
  }

  /** A template argument whose brackets match and whose commas all sit
      inside them, such as a nested template `TVec3<f>`. */
  predicate Balanced(a: string) {
    BalancedFrom(a, 0)
  }

  /** What the rendering loop demands of one template argument: integral, or
      one node with nothing left over. */
  predicate ArgRenders(a: string) {
    IsIntegral(a) || (Node(a).Ok? && Node(a).value.rest == "")
  }

  /** The rendering of an argument that `ArgRenders`. */
  function RenderedArg(a: string): string
    requires ArgRenders(a)
  {
    if IsIntegral(a) then a else Node(a).value.value
  }

  /** The renderings of a list of arguments that all render. */
  function RenderedArgs(args: seq<string>): seq<string>
    requires forall k :: 0 <= k < |args| ==> ArgRenders(args[k])
  {
    if |args| == 0 then [] else [RenderedArg(args[0])] + RenderedArgs(args[1..])
  }

  // ---------------------------------------------------------------------------
  // Small facts about strings

  lemma UnderscoreFree(s: string)
    requires '_' !in s
    ensures NoDoubleUnderscore(s)
  {
    forall j | 0 <= j < |s| - 1
      ensures s[j] != '_'
    {
      assert s[j] in s;
    }
  }

  lemma NoDoubleUnderscoreConcat(a: string, b: string)
    requires NoDoubleUnderscore(a) && NoDoubleUnderscore(b)
    requires |a| == 0 || |b| == 0 || a[|a| - 1] != '_' || b[0] != '_'
    ensures NoDoubleUnderscore(a + b)
  {
    var s := a + b;
    forall j | 0 <= j < |s| - 1
      ensures !(s[j] == '_' && s[j + 1] == '_')
    {
      if j + 1 < |a| {
        assert s[j] == a[j] && s[j + 1] == a[j + 1];
      } else if j >= |a| {
        assert s[j] == b[j - |a|] && s[j + 1] == b[j + 1 - |a|];
      }
    }
  }

  /** `"_"` followed by underscore-free text. */
  lemma LeadingUnderscoreOnly(b: string)
    requires '_' !in b
    ensures NoDoubleUnderscore("_" + b)
  {
    UnderscoreFree(b);
    if |b| > 0 {
      assert b[0] in b;
    }
    NoDoubleUnderscoreConcat("_", b);
  }

  /** The first `c` of `a + [c] + b`, when `a` has none, is right after `a`. */
  lemma FindAfter(a: string, c: char, b: string)
    requires c !in a
    ensures Find(a + [c] + b, c) == |a|
  {
    var s := a + [c] + b;
    assert forall j :: 0 <= j < |a| ==> s[j] == a[j] && a[j] in a;
    assert s[|a|] == c;
  }

  lemma FindAbsent(s: string, c: char)
    requires c !in s
    ensures Find(s, c) == |s|
  {
    assert forall j :: 0 <= j < |s| ==> s[j] in s;
  }

  lemma JoinSnoc(xs: seq<string>, y: string)
    ensures Join(xs + [y], "") == Join(xs, "") + y
    decreases |xs|
  {
    if |xs| == 0 {
      assert xs + [y] == [y];
    } else if |xs| == 1 {
      assert xs + [y] == [xs[0], y];
    } else {
      assert (xs + [y])[1..] == xs[1..] + [y];
      JoinSnoc(xs[1..], y);
    }
  }

  // ---------------------------------------------------------------------------
  // The top-level split

  /** Without adjacent underscores from `from` on, `__` occurs nowhere there. */
  lemma NoOccurrenceFrom(s: string, from: nat)
    requires forall j :: from <= j < |s| - 1 ==> !(s[j] == '_' && s[j + 1] == '_')
    ensures forall j :: from <= j ==> !Occurs(s, "__", j)
  {
    forall j | from <= j
      ensures !Occurs(s, "__", j)
    {
      if 0 <= j && j + 2 <= |s| {
        assert s[j..j + 2][0] == s[j] && s[j..j + 2][1] == s[j + 1];
      }
    }
  }

  /** When the last `__` is at index 0 or absent, the symbol is returned as
      it is. */
  lemma PassThrough(s: string)
    requires forall j :: 0 < j < |s| - 1 ==> !(s[j] == '_' && s[j + 1] == '_')
    ensures DemangleSymbol(s) == Ok(s)
  {
    NoOccurrenceFrom(s, 1);
  }

  /** A symbol with no `__` at all is returned unchanged. */
  lemma PassThroughPlain(s: string)
    requires NoDoubleUnderscore(s)
    ensures DemangleSymbol(s) == Ok(s)
  {
    PassThrough(s);
  }

  /** The split is at the last `__`: the name keeps any earlier `__`. */
  lemma SplitAtLast(name: string, rest: string)
    requires |name| > 0
    requires NoDoubleUnderscore(rest) && (|rest| == 0 || rest[0] != '_')
    ensures DemangleSymbol(name + "__" + rest) == DemangleCompound(name, rest)
  {
    var s := name + "__" + rest;
    assert s[|name|..|name| + 2] == "__";
    assert Occurs(s, "__", |name|);
    assert forall j :: |name| + 2 <= j < |s| ==> s[j] == rest[j - |name| - 2];
    NoOccurrenceFrom(s, |name| + 1);
    var i := RFind(s, "__");
    assert i == |name|;
    assert s[..i] == name;
    assert s[i + 2..] == rest;
  }

  // ---------------------------------------------------------------------------
  // Qualifiers

  /** The qualifier loop reads every code in front of the node: the prefix
      words and the suffix marks each in the order they occur. */
  lemma {:induction false} ScanQualifiersCodes(q: string, t: string)
    requires QualifierCodes(q)
    requires |t| > 0 && t[0] !in NodePrefixes && t[0] !in NodeSuffixes
    ensures ScanQualifiers(q + t) == Ok(Qualifiers(PrefixWords(q), SuffixMarks(q), t))
    decreases |q|
  {
    if |q| == 0 {
      assert q + t == t;
    } else {
      assert (q + t)[0] == q[0];
      assert (q + t)[1..] == q[1..] + t;
      ScanQualifiersCodes(q[1..], t);
      if q[0] in NodePrefixes {
        assert q[0] !in NodeSuffixes;
        assert SuffixMarks(q) == SuffixMarks(q[1..]);
      } else {
        assert PrefixWords(q) == PrefixWords(q[1..]);
      }
    }
  }

  /** One step of `demangle_node`: the qualifiers, the body, and the move of
      a lone `const` behind a function type. */
  lemma NodeSteps(s: string, q: Qualifiers)
    requires ScanQualifiers(s) == Ok(q)
    ensures NodeBody(q.rest).Err? ==> Node(s) == Err(NodeBody(q.rest).failure)
    ensures NodeBody(q.rest).Ok? ==>
              var b := NodeBody(q.rest).value;
              Node(s) == Ok(Decoded(if q.rest[0] == 'F' && q.pre == ["const"] then Render([], b.value, q.post + [" const"])
                                    else Render(q.pre, b.value, q.post), b.rest))
  {
  }

  lemma ScanNone(t: string)
    requires |t| > 0 && t[0] !in NodePrefixes && t[0] !in NodeSuffixes
    ensures ScanQualifiers(t) == Ok(Qualifiers([], [], t))
  {
  }

  lemma RenderPlain(v: string)
    ensures Render([], v, []) == v
  {
  }

  lemma RenderNoPrefix(v: string, post: seq<string>)
    ensures Render([], v, post) == v + Join(post, "")
  {
  }

  /** A node behind qualifier codes: the prefix words joined by spaces come
      first, then the node, then the suffix marks.  Failures of the node
      itself pass through. */
  lemma NodeWithQualifiers(q: string, t: string)
    requires QualifierCodes(q)
    requires |t| > 0 && t[0] !in NodePrefixes && t[0] !in NodeSuffixes
    requires !(t[0] == 'F' && PrefixWords(q) == ["const"])
    ensures NodeBody(t).Err? ==> Node(q + t) == Err(NodeBody(t).failure)
    ensures NodeBody(t).Ok? ==>
              Node(q + t) == Ok(Decoded(Render(PrefixWords(q), NodeBody(t).value.value, SuffixMarks(q)),
                                        NodeBody(t).value.rest))
  {
    ScanQualifiersCodes(q, t);
    NodeSteps(q + t, Qualifiers(PrefixWords(q), SuffixMarks(q), t));
  }

  /** A function type whose only prefix is `const` renders that `const`
      after the signature instead of before it. */
  lemma ConstFunction(q: string, t: string)
    requires QualifierCodes(q)
    requires |t| > 0 && t[0] == 'F'
    requires PrefixWords(q) == ["const"]
    requires NodeBody(t).Ok?
    ensures Node(q + t) == Ok(Decoded(NodeBody(t).value.value + Join(SuffixMarks(q), "") + " const",
                                      NodeBody(t).value.rest))
  {
    ScanQualifiersCodes(q, t);
    NodeSteps(q + t, Qualifiers(PrefixWords(q), SuffixMarks(q), t));
    ConstBehind(NodeBody(t).value.value, SuffixMarks(q));
  }

  lemma ConstBehind(v: string, post: seq<string>)
    ensures Render([], v, post + [" const"]) == v + Join(post, "") + " const"
  {
    RenderNoPrefix(v, post + [" const"]);
    JoinSnoc(post, " const");
  }

  /** A node without qualifiers is its body. */
  lemma NodeUnqualified(t: string)
    requires |t| > 0 && t[0] !in NodePrefixes && t[0] !in NodeSuffixes
    ensures Node(t) == NodeBody(t)
  {
    ScanNone(t);
    var q := Qualifiers([], [], t);
    assert q.pre != ["const"];
    NodeSteps(t, q);
    if NodeBody(t).Ok? {
      RenderPlain(NodeBody(t).value.value);
    }
  }

  /** Built-in type codes are lower-case letters. */
  lemma NotPrimitive(c: char)
    requires !('a' <= c <= 'z')
    ensures c !in PrimitiveTypes
  {
  }

  /** The dispatch on the lead character. */
  lemma DispatchPrimitive(t: string)
    requires |t| > 0 && t[0] in PrimitiveTypes
    ensures NodeBody(t) == Ok(Decoded(PrimitiveTypes[t[0]], t[1..]))
  {
  }

  lemma DispatchQualified(t: string)
    requires |t| > 0 && t[0] == 'Q'
    ensures NodeBody(t) == QualifiedNode(t)
  {
    NotPrimitive('Q');
  }

  lemma DispatchArray(t: string)
    requires |t| > 0 && t[0] == 'A'
    ensures NodeBody(t) == ArrayNode(t)
  {
    NotPrimitive('A');
  }

  lemma DispatchFunction(t: string)
    requires |t| > 0 && t[0] == 'F'
    ensures NodeBody(t) == FunctionNode(t)
  {
    NotPrimitive('F');
  }

  lemma DispatchMember(t: string)
    requires |t| > 0 && t[0] == 'M'
    ensures NodeBody(t) == MemberNode(t)
  {
    NotPrimitive('M');
  }

  /** A node led by `Q` is a qualified name. */
  lemma NodeIsQualified(t: string)
    requires |t| > 0 && t[0] == 'Q'
    ensures Node(t) == QualifiedNode(t)
  {
    NodeUnqualified(t);
    DispatchQualified(t);
  }

  /** A node led by `A` is an array. */
  lemma NodeIsArray(t: string)
    requires |t| > 0 && t[0] == 'A'
    ensures Node(t) == ArrayNode(t)
  {
    NodeUnqualified(t);
    DispatchArray(t);
  }

  /** A node led by `F` is a function type. */
  lemma NodeIsFunction(t: string)
    requires |t| > 0 && t[0] == 'F'
    ensures Node(t) == FunctionNode(t)
  {
    NodeUnqualified(t);
    DispatchFunction(t);
  }

  /** A node led by `M` is a pointer to member. */
  lemma NodeIsMember(t: string)
    requires |t| > 0 && t[0] == 'M'
    ensures Node(t) == MemberNode(t)
  {
    NodeUnqualified(t);
    DispatchMember(t);
  }

  lemma DispatchLiteral(t: string)
    requires |t| > 0 && IsDigit(t[0])
    ensures NodeBody(t) == LiteralNode(t)
  {
    var c := t[0];
    assert '0' <= c <= '9';
    NotPrimitive(c);
    assert c != 'Q' && c != 'A' && c != 'F' && c != 'M';
  }

  // ---------------------------------------------------------------------------
  // Kinds of node

  /** A primitive code is rendered from the table. */
  lemma NodePrimitive(c: char, rest: string)
    requires c in PrimitiveTypes
    ensures Node([c] + rest) == Ok(Decoded(PrimitiveTypes[c], rest))
  {
    var t := [c] + rest;
    assert t[0] == c && t[1..] == rest;
    NodeUnqualified(t);
    DispatchPrimitive(t);
  }

  lemma QualifiedOf(d: nat, s: string)
    requires d < 10
    ensures QComponents(d, s).Err? ==> QualifiedNode("Q" + [DecimalDigit(d)] + s) == Err(QComponents(d, s).failure)
    ensures QComponents(d, s).Ok? ==>
              QualifiedNode("Q" + [DecimalDigit(d)] + s)
                == Ok(Decoded(Join(QComponents(d, s).value.value, "::"), QComponents(d, s).value.rest))
  {
    var t := "Q" + [DecimalDigit(d)] + s;
    assert t[1] == DecimalDigit(d) && t[2..] == s;
    assert IsDigit(t[1]) && DigitOf(t[1]) == d;
  }

  /** `Q<d>`: exactly `d` nodes, joined by `::`. */
  lemma NodeQualified(d: nat, s: string)
    requires d < 10
    ensures QComponents(d, s).Err? ==> Node("Q" + [DecimalDigit(d)] + s) == Err(QComponents(d, s).failure)
    ensures QComponents(d, s).Ok? ==>
              Node("Q" + [DecimalDigit(d)] + s)
                == Ok(Decoded(Join(QComponents(d, s).value.value, "::"), QComponents(d, s).value.rest))
  {
    var t := "Q" + [DecimalDigit(d)] + s;
    assert t[0] == 'Q';
    NodeIsQualified(t);
    QualifiedOf(d, s);
  }

  /** `Q` must be followed by one decimal digit. */
  lemma NodeQualifiedMalformed(c: char, s: string)
    ensures Node("Q") == Err(IndexError)
    ensures !IsDigit(c) ==> Node("Q" + [c] + s) == Err(ValueError)
  {
    var t := "Q" + [c] + s;
    assert t[0] == 'Q' && t[1] == c;
    NodeIsQualified("Q");
    NodeIsQualified(t);
  }

  /** The count of an array: digits, perhaps with leading zeros. */
  lemma CountDigits(zeros: nat, n: nat)
    ensures var count := Zeros(zeros) + NatToString(n);
            && '_' !in count
            && ParseInt(count, 10) == Ok(n)
  {
    var count := Zeros(zeros) + NatToString(n);
    NatToStringDigits(n);
    assert AllDigits(count) by {
      forall i | 0 <= i < |count| ensures IsDigit(count[i]) {
        if i >= zeros {
          assert count[i] == NatToString(n)[i - zeros];
        }
      }
    }
    assert '_' !in count by {
      forall i | 0 <= i < |count| ensures count[i] != '_' {
        assert IsDigit(count[i]);
      }
    }
    DigitsValueLeadingZeros(zeros, NatToString(n), 10);
    ParseIntDecimal(count);
  }

  lemma ArrayOf(zeros: nat, n: nat, s: string)
    ensures Node(s).Err? ==> ArrayNode("A" + Zeros(zeros) + NatToString(n) + "_" + s) == Err(Node(s).failure)
    ensures Node(s).Ok? ==>
              ArrayNode("A" + Zeros(zeros) + NatToString(n) + "_" + s)
                == Ok(Decoded(Node(s).value.value + "[" + NatToString(n) + "]", Node(s).value.rest))
  {
    var count := Zeros(zeros) + NatToString(n);
    CountDigits(zeros, n);
    ArraySteps(count, n, s);
    Regroup("A", Zeros(zeros), NatToString(n), "_", s);
  }

  lemma Regroup(a: string, b: string, c: string, d: string, e: string)
    ensures a + b + c + d + e == a + (b + c) + d + e
  {
  }

  lemma ArraySteps(count: string, n: int, s: string)
    requires '_' !in count && ParseInt(count, 10) == Ok(n)
    ensures Node(s).Err? ==> ArrayNode("A" + count + "_" + s) == Err(Node(s).failure)
    ensures Node(s).Ok? ==>
              ArrayNode("A" + count + "_" + s) == Ok(Decoded(Node(s).value.value + "[" + IntToString(n) + "]", Node(s).value.rest))
  {
    var t := "A" + count + "_" + s;
    var u := t[1..];
    assert u == count + "_" + s;
    FindAfter(count, '_', s);
    assert u[..|count|] == count && u[|count| + 1..] == s;
  }

  /** `A<count>_<node>`: the element type followed by `[count]`, where the
      count has passed through `int()`, so leading zeros are gone. */
  lemma NodeArray(zeros: nat, n: nat, s: string)
    ensures Node(s).Err? ==> Node("A" + Zeros(zeros) + NatToString(n) + "_" + s) == Err(Node(s).failure)
    ensures Node(s).Ok? ==>
              Node("A" + Zeros(zeros) + NatToString(n) + "_" + s)
                == Ok(Decoded(Node(s).value.value + "[" + NatToString(n) + "]", Node(s).value.rest))
  {
    var t := "A" + Zeros(zeros) + NatToString(n) + "_" + s;
    assert t[0] == 'A';
    NodeIsArray(t);
    ArrayOf(zeros, n, s);
  }

  /** `A` without an `_` after the count fails on `rest[0]`. */
  lemma NodeArrayUnterminated(u: string)
    requires '_' !in u
    ensures Node("A" + u) == Err(IndexError)
  {
    var t := "A" + u;
    assert t[0] == 'A' && t[1..] == u;
    NodeIsArray(t);
    FindAbsent(u, '_');
  }

  lemma DigitRunOf(digits: string, after: string)
    requires AllDigits(digits)
    requires |after| > 0 && !IsDigit(after[0])
    ensures DigitRun(digits + after) == |digits|
    ensures (digits + after)[..|digits|] == digits && (digits + after)[|digits|..] == after
  {
    var t := digits + after;
    var k := DigitRun(t);
    assert t[|digits|] == after[0];
    assert forall i :: 0 <= i < |digits| ==> t[i] == digits[i];
    assert forall i :: 0 <= i < k ==> t[..k][i] == t[i];
  }

  /** A node that starts with a digit is a literal. */
  lemma LiteralLead(t: string)
    requires |t| > 0 && IsDigit(t[0])
    ensures Node(t) == LiteralNode(t)
  {
    DigitNotQualifier(t[0]);
    LiteralLeadSteps(t);
  }

  lemma DigitNotQualifier(c: char)
    requires IsDigit(c)
    ensures c !in NodePrefixes && c !in NodeSuffixes
  {
  }

  lemma LiteralLeadSteps(t: string)
    requires |t| > 0 && t[0] !in NodePrefixes && t[0] !in NodeSuffixes
    requires IsDigit(t[0])
    ensures Node(t) == LiteralNode(t)
  {
    NodeUnqualified(t);
    DispatchLiteral(t);
  }

  lemma LiteralUnterminated(digits: string)
    requires |digits| > 0 && AllDigits(digits)
    ensures LiteralNode(digits) == Err(IndexError)
  {
    DigitRunAll(digits);
  }

  lemma {:induction false} DigitRunAll(digits: string)
    requires AllDigits(digits)
    ensures DigitRun(digits) == |digits|
  {
    var k := DigitRun(digits);
    assert forall i :: 0 <= i < |digits| ==> IsDigit(digits[i]);
  }

  lemma LiteralOf(digits: string, after: string)
    requires |digits| > 0 && AllDigits(digits)
    requires |after| > 0 && !IsDigit(after[0])
    ensures var take := if DigitsValue(digits, 10) <= |after| then DigitsValue(digits, 10) else |after|;
            && (TryDemangleTemplates(after[..take]).Err? ==>
                  LiteralNode(digits + after) == Err(TryDemangleTemplates(after[..take]).failure))
            && (TryDemangleTemplates(after[..take]).Ok? ==>
                  LiteralNode(digits + after) == Ok(Decoded(TryDemangleTemplates(after[..take]).value, after[take..])))
  {
    DigitRunOf(digits, after);
  }

  /** The literal after a digit run is the slice of that many characters,
      cut short by the end of the input, with its templates decoded. */
  lemma NodeLiteral(digits: string, after: string)
    requires |digits| > 0 && AllDigits(digits)
    requires |after| > 0 && !IsDigit(after[0])
    ensures var take := if DigitsValue(digits, 10) <= |after| then DigitsValue(digits, 10) else |after|;
            && (TryDemangleTemplates(after[..take]).Err? ==>
                  Node(digits + after) == Err(TryDemangleTemplates(after[..take]).failure))
            && (TryDemangleTemplates(after[..take]).Ok? ==>
                  Node(digits + after) == Ok(Decoded(TryDemangleTemplates(after[..take]).value, after[take..])))
  {
    var t := digits + after;
    assert t[0] == digits[0];
    LiteralLead(t);
    LiteralOf(digits, after);
  }

  lemma SliceParts(body: string, rest: string)
    ensures (body + rest)[..|body|] == body && (body + rest)[|body|..] == rest
  {
  }

  /** A literal whose digit run is the decimal length of the name. */
  lemma NodeLiteralName(body: string, rest: string)
    requires |body| > 0 && !IsDigit(body[0])
    requires TryDemangleTemplates(body).Ok?
    ensures Node(NatToString(|body|) + body + rest) == Ok(Decoded(TryDemangleTemplates(body).value, rest))
  {
    var d := NatToString(|body|);
    var after := body + rest;
    NatToStringDigits(|body|);
    assert after[0] == body[0];
    SliceParts(body, rest);
    NodeLiteralFits(d, after, |body|);
    assert d + body + rest == d + after;
  }

  /** A literal whose length fits in what follows it. */
  lemma NodeLiteralFits(digits: string, after: string, n: nat)
    requires |digits| > 0 && AllDigits(digits) && DigitsValue(digits, 10) == n
    requires |after| > 0 && !IsDigit(after[0]) && n <= |after|
    requires TryDemangleTemplates(after[..n]).Ok?
    ensures Node(digits + after) == Ok(Decoded(TryDemangleTemplates(after[..n]).value, after[n..]))
  {
    NodeLiteral(digits, after);
  }

  /** A literal longer than what is left takes all of it. */
  lemma NodeLiteralTruncated(digits: string, after: string)
    requires |digits| > 0 && AllDigits(digits)
    requires |after| > 0 && !IsDigit(after[0])
    requires DigitsValue(digits, 10) >= |after|
    requires TryDemangleTemplates(after).Ok?
    ensures Node(digits + after) == Ok(Decoded(TryDemangleTemplates(after).value, ""))
  {
    NodeLiteral(digits, after);
    assert after[..|after|] == after;
  }

  /** A digit run with nothing after it fails on `rest[0]`. */
  lemma NodeLiteralUnterminated(digits: string)
    requires |digits| > 0 && AllDigits(digits)
    ensures Node(digits) == Err(IndexError)
  {
    LiteralLead(digits);
    LiteralUnterminated(digits);
  }

  lemma FunctionOf(s: string)
    ensures FuncArgs(s).Err? ==> FunctionNode("F" + s) == Err(FuncArgs(s).failure)
    ensures FuncArgs(s).Ok? ==>
              FunctionNode("F" + s) == Ok(Decoded(RetPrefix(FuncArgs(s).value.ret) + "()("
                                                  + Join(FuncArgs(s).value.args, ", ") + ")", FuncArgs(s).value.rest))
  {
    assert ("F" + s)[1..] == s;
  }

  /** A function type: `ret ()(args)`, the return type only after `_`. */
  lemma NodeFunction(s: string)
    ensures FuncArgs(s).Err? ==> Node("F" + s) == Err(FuncArgs(s).failure)
    ensures FuncArgs(s).Ok? ==>
              Node("F" + s) == Ok(Decoded(RetPrefix(FuncArgs(s).value.ret) + "()("
                                          + Join(FuncArgs(s).value.args, ", ") + ")", FuncArgs(s).value.rest))
  {
    assert ("F" + s)[0] == 'F';
    NodeIsFunction("F" + s);
    FunctionOf(s);
  }

  lemma MemberOf(s: string, isConst: bool, args: string)
    requires Node(s).Ok?
    requires Node(s).value.rest == (if isConst then "CF" else "F") + args
    ensures FuncArgs(args).Err? ==> MemberNode("M" + s) == Err(FuncArgs(args).failure)
    ensures FuncArgs(args).Ok? ==>
              MemberNode("M" + s) == Ok(Decoded(RetPrefix(FuncArgs(args).value.ret) + "(" + Node(s).value.value + "::*)("
                                                + Join(FuncArgs(args).value.args, ", ") + ")"
                                                + (if isConst then " const" else ""), FuncArgs(args).value.rest))
  {
    assert ("M" + s)[1..] == s;
    var u := Node(s).value.rest;
    if isConst {
      assert u[0] == 'C' && u[1..] == "F" + args;
      assert u[1..][1..] == args;
    } else {
      assert u[0] == 'F' && u[1..] == args;
    }
  }

  /** A pointer to member function: `ret (class::*)(args)`, with ` const`
      when `C` comes before the `F`. */
  lemma NodeMember(s: string, isConst: bool, args: string)
    requires Node(s).Ok?
    requires Node(s).value.rest == (if isConst then "CF" else "F") + args
    ensures FuncArgs(args).Err? ==> Node("M" + s) == Err(FuncArgs(args).failure)
    ensures FuncArgs(args).Ok? ==>
              Node("M" + s) == Ok(Decoded(RetPrefix(FuncArgs(args).value.ret) + "(" + Node(s).value.value + "::*)("
                                          + Join(FuncArgs(args).value.args, ", ") + ")"
                                          + (if isConst then " const" else ""), FuncArgs(args).value.rest))
  {
    assert ("M" + s)[0] == 'M';
    NodeIsMember("M" + s);
    MemberOf(s, isConst, args);
  }


  lemma MemberMalformedOf(s: string)
    requires Node(s).Ok?
    ensures var u := Node(s).value.rest;
            var v := if |u| > 0 && u[0] == 'C' then u[1..] else u;
            && (|v| == 0 ==> MemberNode("M" + s) == Err(IndexError))
            && (|v| > 0 && v[0] != 'F' ==> MemberNode("M" + s) == Err(DemanglerException("Error! Expection F after member.")))
  {
    assert ("M" + s)[1..] == s;
  }

  /** A member pointer needs `F`, after an optional `C`. */
  lemma NodeMemberMalformed(s: string)
    requires Node(s).Ok?
    ensures var u := Node(s).value.rest;
            var v := if |u| > 0 && u[0] == 'C' then u[1..] else u;
            && (|v| == 0 ==> Node("M" + s) == Err(IndexError))
            && (|v| > 0 && v[0] != 'F' ==> Node("M" + s) == Err(DemanglerException("Error! Expection F after member.")))
  {
    assert ("M" + s)[0] == 'M';
    NodeIsMember("M" + s);
    MemberMalformedOf(s);
  }

  /** A lead character that names no kind of node raises the demangler's
      own exception, which quotes the rest of the input. */
  lemma NodeInvalid(t: string)
    requires |t| > 0 && t[0] !in NodePrefixes && t[0] !in NodeSuffixes && t[0] !in PrimitiveTypes
    requires t[0] !in {'Q', 'A', 'F', 'M'} && !IsDigit(t[0])
    ensures Node(t) == Err(DemanglerException("Error! Invalid node: " + t))
  {
    NodeUnqualified(t);
  }

  /** Qualifier codes with no node after them fail on `rest[0]`. */
  lemma NodeExhausted(q: string)
    requires QualifierCodes(q)
    ensures Node(q) == Err(IndexError)
  {
    ScanQualifiersExhausted(q);
  }

  lemma {:induction false} ScanQualifiersExhausted(q: string)
    requires QualifierCodes(q)
    ensures ScanQualifiers(q) == Err(IndexError)
    decreases |q|
  {
    if |q| > 0 {
      ScanQualifiersExhausted(q[1..]);
    }
  }

  // ---------------------------------------------------------------------------
  // Argument lists

  /** After `_`, exactly one return node is read and what follows it is left
      unread. */
  lemma FuncArgsReturn(s: string)
    ensures Node(s).Err? ==> FuncArgs("_" + s) == Err(Node(s).failure)
    ensures Node(s).Ok? ==> FuncArgs("_" + s) == Ok(Signature([], Some(Node(s).value.value), Node(s).value.rest))
  {
    assert ("_" + s)[1..] == s;
  }

  /** Arguments are read in order: the first node, then the rest of the list. */
  lemma FuncArgsArgument(s: string)
    requires |s| > 0 && s[0] != '_'
    requires Node(s).Ok?
    ensures FuncArgs(Node(s).value.rest).Err? ==> FuncArgs(s) == Err(FuncArgs(Node(s).value.rest).failure)
    ensures FuncArgs(Node(s).value.rest).Ok? ==>
              var tail := FuncArgs(Node(s).value.rest).value;
              FuncArgs(s) == Ok(tail.(args := [Node(s).value.value] + tail.args))
  {
  }

  // ---------------------------------------------------------------------------
  // Templates

  /** A name without `<` has no template arguments to decode. */
  lemma NoTemplate(name: string)
    requires '<' !in name
    ensures TryDemangleTemplates(name) == Ok(name)
  {
    FindAbsent(name, '<');
    assert name[..|name|] == name;
  }

  /** Inside an argument, at `d` levels below the argument's own, the
      splitting loop copies every character into the current argument: a
      balanced rest is taken whole and the loop is back at level 1. */
  lemma {:induction false} SplitBalanced(a: string, d: nat, tail: string, current: string, types: seq<string>)
    requires BalancedFrom(a, d)
    ensures SplitTemplateArgs(a + tail, 1 + d, current, types) == SplitTemplateArgs(tail, 1, current + a, types)
    decreases |a|
  {
    if |a| == 0 {
      assert a + tail == tail && current + a == current;
    } else {
      assert (a + tail)[0] == a[0] && (a + tail)[1..] == a[1..] + tail;
      var e: nat := if a[0] == '<' then d + 1 else if a[0] == '>' then d - 1 else d;
      SplitBalanced(a[1..], e, tail, current + [a[0]], types);
      assert current + [a[0]] + a[1..] == current + a;
    }
  }

  /** Text without brackets or commas in front of a balanced rest keeps it
      balanced. */
  lemma {:induction false} FlatBalancedFrom(a: string, d: nat, t: string)
    requires Flat(a) && BalancedFrom(t, d)
    ensures BalancedFrom(a + t, d)
    decreases |a|
  {
    if |a| > 0 {
      assert a[0] in a;
      assert (a + t)[0] == a[0] && (a + t)[1..] == a[1..] + t;
      assert Flat(a[1..]) by {
        forall c | c in a[1..] ensures c in a { }
      }
      FlatBalancedFrom(a[1..], d, t);
    } else {
      assert a + t == t;
    }
  }

  /** A flat argument is balanced. */
  lemma FlatBalanced(a: string)
    requires Flat(a)
    ensures Balanced(a)
  {
    FlatBalancedFrom(a, 0, "");
    assert a + "" == a;
  }

  /** A flat name with one flat template argument is balanced. */
  lemma NestedBalanced(x: string, y: string)
    requires Flat(x) && Flat(y)
    ensures Balanced(x + "<" + y + ">")
  {
    assert BalancedFrom(">", 1);
    FlatBalancedFrom(y, 1, ">");
    assert ("<" + (y + ">"))[1..] == y + ">";
    assert BalancedFrom("<" + (y + ">"), 0);
    FlatBalancedFrom(x, 0, "<" + (y + ">"));
    assert x + "<" + y + ">" == x + ("<" + (y + ">"));
  }

  lemma SplitClose(current: string, types: seq<string>)
    ensures SplitTemplateArgs(">", 1, current, types) == types + [current]
  {
  }

  lemma SplitComma(x: string, current: string, types: seq<string>)
    ensures SplitTemplateArgs("," + x, 1, current, types) == SplitTemplateArgs(x, 1, "", types + [current])
  {
    assert ("," + x)[0] == ',' && ("," + x)[1..] == x;
  }

  lemma SplitOpen(x: string)
    ensures SplitTemplateArgs("<" + x, 0, "", []) == SplitTemplateArgs(x, 1, "", [])
  {
    assert ("<" + x)[0] == '<' && ("<" + x)[1..] == x;
  }

  lemma JoinCommaCons(args: seq<string>)
    requires |args| >= 2
    ensures Join(args, ",") + ">" == args[0] + ("," + (Join(args[1..], ",") + ">"))
  {
  }

  lemma SplitLastArg(a: string, types: seq<string>)
    requires Balanced(a)
    ensures SplitTemplateArgs(a + ">", 1, "", types) == types + [a]
  {
    SplitBalanced(a, 0, ">", "", types);
    assert "" + a == a;
    SplitClose(a, types);
  }

  lemma SplitFirstArg(a: string, tail: string, types: seq<string>)
    requires Balanced(a)
    ensures SplitTemplateArgs(a + ("," + tail), 1, "", types) == SplitTemplateArgs(tail, 1, "", types + [a])
  {
    SplitBalanced(a, 0, "," + tail, "", types);
    assert "" + a == a;
    SplitComma(tail, a, types);
  }

  lemma SplitArgsStep(args: seq<string>, types: seq<string>)
    requires |args| >= 2 && Balanced(args[0])
    ensures SplitTemplateArgs(Join(args, ",") + ">", 1, "", types)
         == SplitTemplateArgs(Join(args[1..], ",") + ">", 1, "", types + [args[0]])
  {
    JoinCommaCons(args);
    SplitFirstArg(args[0], Join(args[1..], ",") + ">", types);
  }

  lemma SplitOnlyArg(args: seq<string>, types: seq<string>)
    requires |args| == 1 && Balanced(args[0])
    ensures SplitTemplateArgs(Join(args, ",") + ">", 1, "", types) == types + args
  {
    SplitLastArg(args[0], types);
    assert Join(args, ",") + ">" == args[0] + ">";
    assert types + args == types + [args[0]];
  }

  lemma BalancedTail(
args: seq<string>)
    requires |args| >= 1
    requires forall k :: 0 <= k < |args| ==> Balanced(args[k])
    ensures forall k :: 0 <= k < |args[1..]| ==> Balanced(args[1..][k])
  {
    forall k | 0 <= k < |args[1..]| ensures Balanced(args[1..][k]) {
      assert args[1..][k] == args[k + 1];
    }
  }

  lemma {:induction false} SplitBalancedList(args: seq<string>, types: seq<string>)
    requires |args| >= 1
    requires forall k :: 0 <= k < |args| ==> Balanced(args[k])
    ensures SplitTemplateArgs(Join(args, ",") + ">", 1, "", types) == types + args
    decreases |args|
  {
    assert Balanced(args[0]);
    if |args| == 1 {
      SplitOnlyArg(args, types);
    } else {
      SplitArgsStep(args, types);
      BalancedTail(args);
      SplitBalancedList(args[1..], types + [args[0]]);
      assert types + [args[0]] + args[1..] == types + args;
    }
  }


  lemma Bracketed(x: string, j: string)
    requires x == j + ">"
    ensures TemplateArgs("<" + j + ">") == SplitTemplateArgs("<" + x, 0, "", [])
  {
    assert "<" + j + ">" == "<" + x;
  }

  /** A template of balanced arguments splits at the commas of its own
      level, keeping every nested template whole. */
  lemma TemplateArgsBalanced(args: seq<string>)
    requires |args| >= 1
    requires forall k :: 0 <= k < |args| ==> Balanced(args[k])
    ensures TemplateArgs("<" + Join(args, ",") + ">") == args
  {
    var x := Join(args, ",") + ">";
    Bracketed(x, Join(args, ","));
    SplitOpen(x);
    SplitBalancedList(args, []);
    assert [] + args == args;
  }

  /** A nested template argument followed by another argument:
      `<x<y>,z>` has the two arguments `x<y>` and `z`. */
  lemma NestedTemplateArgs(x: string, y: string, z: string)
    requires Flat(x) && Flat(y) && Flat(z)
    ensures TemplateArgs("<" + (x + "<" + y + ">") + "," + z + ">") == [x + "<" + y + ">", z]
  {
    var n := x + "<" + y + ">";
    NestedBalanced(x, y);
    FlatBalanced(z);
    TemplateArgsBalanced([n, z]);
    assert Join([n, z], ",") == n + "," + z by {
      assert [n, z][1..] == [z];
    }
    assert "<" + Join([n, z], ",") + ">" == "<" + n + "," + z + ">";
  }

  /** The rendering loop succeeds exactly when every argument is integral or
      decodes as one node with nothing left, and then renders each argument
      in place. */
  lemma {:induction false} RenderTemplateArgsSpec(types: seq<string>, bound: nat)
    requires forall x :: x in types ==> |x| < bound
    ensures RenderTemplateArgs(types, bound).Ok? <==> forall k :: 0 <= k < |types| ==> ArgRenders(types[k])
    ensures RenderTemplateArgs(types, bound).Ok? ==> RenderTemplateArgs(types, bound).value == RenderedArgs(types)
    decreases |types|
  {
    if |types| > 0 {
      var tail := types[1..];
      RenderTemplateArgsCons(types, bound);
      RenderTemplateArgsSpec(tail, bound);
      EveryArgRenders(types);
    }
  }

  /** Every argument renders exactly when the first one and every later one
      do. */
  lemma EveryArgRenders(types: seq<string>)
    requires |types| > 0
    ensures (forall k :: 0 <= k < |types| ==> ArgRenders(types[k])) <==>
              ArgRenders(types[0]) && forall k :: 0 <= k < |types[1..]| ==> ArgRenders(types[1..][k])
  {
    if ArgRenders(types[0]) && forall k :: 0 <= k < |types[1..]| ==> ArgRenders(types[1..][k]) {
      forall k | 0 <= k < |types|
        ensures ArgRenders(types[k])
      {
        if k > 0 {
          assert types[k] == types[1..][k - 1];
        }
      }
    }
  }

  /** One step of the rendering loop. */
  lemma RenderTemplateArgsCons(types: seq<string>, bound: nat)
    requires |types| > 0 && forall x :: x in types ==> |x| < bound
    ensures forall x :: x in types[1..] ==> |x| < bound
    ensures RenderTemplateArgs(types, bound).Ok? <==>
              ArgRenders(types[0]) && RenderTemplateArgs(types[1..], bound).Ok?
    ensures RenderTemplateArgs(types, bound).Ok? ==>
              RenderTemplateArgs(types, bound).value
                == [RenderedArg(types[0])] + RenderTemplateArgs(types[1..], bound).value
  {
    assert forall x :: x in types[1..] ==> x in types;
  }

  /** The first argument that fails to decode as exactly one node stops the
      rendering; one that leaves input over fails the `assert`. */
  lemma TemplateArgLeftover(a: string, others: seq<string>, bound: nat)
    requires forall x :: x in [a] + others ==> |x| < bound
    requires !IsIntegral(a) && Node(a).Ok? && Node(a).value.rest != ""
    ensures RenderTemplateArgs([a] + others, bound) == Err(AssertionError)
  {
  }

  /** A name with balanced template arguments that all render. */
  lemma TemplatedName(name: string, args: seq<string>)
    requires '<' !in name
    requires |args| >= 1
    requires forall k :: 0 <= k < |args| ==> Balanced(args[k])
    requires forall k :: 0 <= k < |args| ==> ArgRenders(args[k])
    ensures TryDemangleTemplates(name + "<" + Join(args, ",") + ">")
              == Ok(name + "<" + Join(RenderedArgs(args), ", ") + ">")
  {
    var template := "<" + Join(args, ",") + ">";
    var node := name + template;
    Regroup3(name, "<", Join(args, ","), ">");
    SeparateTemplateUnique(name, template);
    ArgsShorter(template, args, |node|);
    RenderedAll(args, |node|);
    TemplatesRendered(node, name, template, RenderedArgs(args));
  }

  lemma ArgsShorter(template: string, args: seq<string>, bound: nat)
    requires |args| >= 1
    requires forall k :: 0 <= k < |args| ==> Balanced(args[k])
    requires template == "<" + Join(args, ",") + ">"
    requires |template| <= bound
    ensures TemplateArgs(template) == args
    ensures forall x :: x in args ==> |x| < bound
  {
    TemplateArgsBalanced(args);
  }


  /** Arguments that all render give the list of their renderings. */
  lemma {:induction false} RenderedAll(args: seq<string>, bound: nat)
    requires forall x :: x in args ==> |x| < bound
    requires forall k :: 0 <= k < |args| ==> ArgRenders(args[k])
    ensures RenderTemplateArgs(args, bound) == Ok(RenderedArgs(args))
    decreases |args|
  {
    if |args| > 0 {
      assert forall x :: x in args[1..] ==> x in args;
      assert forall k :: 1 <= k < |args| ==> args[k] == args[1..][k - 1];
      RenderedAll(args[1..], bound);
    }
  }

  lemma Regroup3(a: string, b: string, c: string, d: string)
    ensures a + b + c + d == a + (b + c + d)
  {
  }

  /** The unfolding of `TryDemangleTemplates` when the arguments render. */
  lemma TemplatesRendered(node: string, name: string, template: string, rendered: seq<string>)
    requires SeparateTemplate(node) == (name, template)
    requires template != ""
    requires RenderTemplateArgs(TemplateArgs(template), |node|) == Ok(rendered)
    ensures TryDemangleTemplates(node) == Ok(name + "<" + Join(rendered, ", ") + ">")
  {
  }

  // ---------------------------------------------------------------------------
  // Names

  /** The class name is what follows the last `::`, without template
      arguments; a namespace without `::` is the class itself. */
  lemma ClassNameOnly(last: string)
    requires ':' !in last
    ensures ClassName(last) == SeparateTemplate(last).0
  {
    assert forall k :: Occurs(last, "::", k) ==> last[k] == ':' && last[k] in last;
  }

  lemma ClassNameLast(prefix: string, last: string)
    requires ':' !in last
    ensures ClassName(prefix + "::" + last) == SeparateTemplate(last).0
  {
    var s := prefix + "::" + last;
    LastSeparator(prefix, last);
    assert s[|prefix| + 2..] == last;
  }

  lemma LastSeparator(prefix: string, last: string)
    requires ':' !in last
    ensures RFind(prefix + "::" + last, "::") == |prefix|
  {
    var s := prefix + "::" + last;
    assert s[|prefix|..|prefix| + 2] == "::";
    assert Occurs(s, "::", |prefix|);
    forall k | |prefix| < k
      ensures !Occurs(s, "::", k)
    {
      if k + 2 <= |s| {
        assert s[k + 1] == last[k - |prefix| - 1];
        assert last[k - |prefix| - 1] in last;
      }
    }
  }

  /** `demangle_name`: the plain name is looked up among the special names;
      a constructor is named after its class and a destructor after `~` and
      its class, which needs a namespace; in every case the decoded template
      suffix is put back. */
  lemma DemangleNameCases(name: string, namespace: Option<string>)
    ensures TryDemangleTemplates(name).Err? ==> DemangleName(name, namespace) == Err(TryDemangleTemplates(name).failure)
    ensures TryDemangleTemplates(name).Ok? ==>
              var plain := SeparateTemplate(name).0;
              var suffix := SeparateTemplate(TryDemangleTemplates(name).value).1;
              && (plain in SpecialNameTable ==> DemangleName(name, namespace) == Ok(SpecialNameTable[plain] + suffix))
              && ((plain == "__ct" || plain == "__dt") && namespace.None? ==> DemangleName(name, namespace) == Err(AttributeError))
              && (plain == "__ct" && namespace.Some? ==> DemangleName(name, namespace) == Ok(ClassName(namespace.value) + suffix))
              && (plain == "__dt" && namespace.Some? ==> DemangleName(name, namespace) == Ok("~" + ClassName(namespace.value) + suffix))
              && (plain !in SpecialNameTable && plain != "__ct" && plain != "__dt" ==>
                    DemangleName(name, namespace) == TryDemangleTemplates(name))
  {
    if TryDemangleTemplates(name).Ok? {
      ConstructorNamesNotSpecial();
    }
  }

  lemma ConstructorNamesNotSpecial()
    ensures "__ct" !in SpecialNameTable && "__dt" !in SpecialNameTable
  {
  }

  // ---------------------------------------------------------------------------
  // Top level

  /** Without `F` there is no argument list and no ` const`, even when `C`
      was read; the result is the namespace, `::` and the name. */
  lemma DataSymbol(name: string, rest: string)
    requires ScanHeader(rest, false, None).Ok? && !ScanHeader(rest, false, None).value.hasFunc
    requires DemangleName(name, ScanHeader(rest, false, None).value.namespace).Ok?
    ensures var h := ScanHeader(rest, false, None).value;
            DemangleCompound(name, rest)
              == Ok((match h.namespace case None => "" case Some(ns) => ns + "::") + DemangleName(name, h.namespace).value)
  {
    var h := ScanHeader(rest, false, None).value;
    EmptyEnds((match h.namespace case None => "" case Some(ns) => ns + "::"), DemangleName(name, h.namespace).value);
  }

  lemma EmptyEnds(x: string, y: string)
    ensures "" + x + y + "" == x + y
  {
  }

  /** Input left after the return type of the signature fails the `assert`. */
  lemma TrailingInput(name: string, rest: string)
    requires ScanHeader(rest, false, None).Ok? && ScanHeader(rest, false, None).value.hasFunc
    requires FuncArgs(ScanHeader(rest, false, None).value.rest).Ok?
    requires FuncArgs(ScanHeader(rest, false, None).value.rest).value.rest != ""
    ensures DemangleCompound(name, rest) == Err(AssertionError)
  {
  }

  /** Only the last node read before `F` is kept as the namespace. */
  lemma LastNamespaceKept(s: string, isConst: bool, namespace: Option<string>)
    requires |s| > 0 && s[0] != 'F' && s[0] != 'C'
    requires Node(s).Ok?
    ensures ScanHeader(s, isConst, namespace) == ScanHeader(Node(s).value.rest, isConst, Some(Node(s).value.value))
  {
  }
}
