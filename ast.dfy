/** The tree built by the phase-2 parser (ast_nodes.py) and its text
    renderers (`__str__`).  The node classes become one datatype; each
    renderer is a function over it.  A renderer's `for` loop over a child
    list becomes a recursive function over the list of rendered children,
    and Python's `str.split('\n')` and `str.lstrip("|-- ")` are modelled
    exactly by `Split` and `LStrip`. */
module AstNodes {
  import opened Options

  datatype Node =
    | Program(statements: seq<Node>)
    | LetStatement(identifier: string, expression: Node)
    | BinaryOperation(left: Node, operator: string, right: Node)
    | Number(value: string)
    | Identifier(name: string)
    | IfStatement(condition: Node, thenBranch: seq<Node>, elseBranch: ElseBranch)
    | CallStatement(functionName: string, arguments: seq<Node>)

  /** `Optional[List[Node]]`: no else list (None), or a list (possibly empty). */
  datatype ElseBranch = NoElse | ElseList(statements: seq<Node>)

  // ------------------------------------------------------------------
  // Line handling
  // ------------------------------------------------------------------

  /** `s.split('\n')`: the pieces between line feeds, including an empty
      last piece when `s` ends with a line feed. */
  function Split(s: string): (r: seq<string>)
    ensures |r| >= 1
    decreases |s|
  {
    if s == [] then [""]
    else
      var rest := Split(s[1..]);
      if s[0] == '\n' then [""] + rest
      else [[s[0]] + rest[0]] + rest[1..]
  }

  /** No piece of a split holds a line feed. */
  lemma {:induction false} SplitPieces(s: string)
    ensures forall k | 0 <= k < |Split(s)| :: '\n' !in Split(s)[k]
    decreases |s|
  {
    if s != [] {
      SplitPieces(s[1..]);
    }
  }

  /** `'\n'.join(ls)`. */
  function Join(ls: seq<string>): string
    requires |ls| >= 1
    decreases |ls|
  {
    if |ls| == 1 then ls[0] else ls[0] + "\n" + Join(ls[1..])
  }

  /** Splitting undoes joining. */
  lemma {:induction false} JoinSplit(s: string)
    ensures Join(Split(s)) == s
    decreases |s|
  {
    if s != [] {
      JoinSplit(s[1..]);
      var rest := Split(s[1..]);
      if s[0] != '\n' && |rest| > 1 {
        assert Split(s)[1..] == rest[1..];
      }
    }
  }

  /** Joining undoes splitting, for pieces without line feeds. */
  lemma {:induction false} SplitJoin(ls: seq<string>)
    requires |ls| >= 1
    requires forall k | 0 <= k < |ls| :: '\n' !in ls[k]
    ensures Split(Join(ls)) == ls
    decreases |ls|
  {
    if |ls| == 1 {
      SplitLine(ls[0], []);
    } else {
      SplitJoin(ls[1..]);
      SplitLine(ls[0], Join(ls[1..]));
      assert ls == [ls[0]] + ls[1..];
    }
  }

  /** A piece without line feeds, then a line feed (or nothing), is split
      off as one line. */
  lemma {:induction false} SplitLine(x: string, rest: string)
    requires '\n' !in x
    ensures Split(x + "\n" + rest) == [x] + Split(rest)
    ensures rest == [] ==> Split(x) == [x]
    decreases |x|
  {
    if x == [] {
      assert x + "\n" + rest == "\n" + rest;
      assert ("\n" + rest)[1..] == rest;
    } else {
      SplitLine(x[1..], rest);
      assert (x + "\n" + rest)[1..] == x[1..] + "\n" + rest;
      assert [x[0]] + x[1..] == x;
      if rest == [] {
        assert x[1..] + [] == x[1..];
        assert (x + [])[1..] == x[1..];
      }
    }
  }

  /** The characters `str.lstrip("|-- ")` removes. */
  predicate IsTreeMark(c: char) {
    c == '|' || c == '-' || c == ' '
  }

  /** `line.lstrip("|-- ")`: the line without its leading tree marks. */
  function LStrip(line: string): (r: string)
    ensures |r| <= |line| && r == line[|line| - |r|..]
    ensures forall k | 0 <= k < |line| - |r| :: IsTreeMark(line[k])
    ensures r == [] || !IsTreeMark(r[0])
    decreases |line|
  {
    if line != [] && IsTreeMark(line[0]) then LStrip(line[1..]) else line
  }

  /** The lines with no line feed at the end of each: `l + "\n"` for each. */
  function Unlines(ls: seq<string>): string
    decreases |ls|
  {
    if ls == [] then "" else ls[0] + "\n" + Unlines(ls[1..])
  }

  lemma {:induction false} SplitUnlines(ls: seq<string>, rest: string)
    requires forall k | 0 <= k < |ls| :: '\n' !in ls[k]
    ensures Split(Unlines(ls) + rest) == ls + Split(rest)
    decreases |ls|
  {
    if ls != [] {
      var u := Unlines(ls[1..]) + rest;
      SplitUnlines(ls[1..], rest);
      assert Split(u) == ls[1..] + Split(rest);
      assert Unlines(ls) + rest == ls[0] + "\n" + u;
      assert '\n' !in ls[0];
      SplitLine(ls[0], u);
      ConsRegroup(ls, Split(rest));
    } else {
      assert Unlines(ls) + rest == rest;
    }
  }

  lemma ConsRegroup(ls: seq<string>, tail: seq<string>)
    requires ls != []
    ensures ls + tail == [ls[0]] + (ls[1..] + tail)
  {
    assert ls == [ls[0]] + ls[1..];
  }

  lemma {:induction false} UnlinesAppend(a: seq<string>, b: seq<string>)
    ensures Unlines(a + b) == Unlines(a) + Unlines(b)
    decreases |a|
  {
    if a != [] {
      UnlinesAppend(a[1..], b);
      assert (a + b)[0] == a[0] && (a + b)[1..] == a[1..] + b;
    } else {
      assert a + b == b;
    }
  }

  // ------------------------------------------------------------------
  // Re-indenting child renderings
  // ------------------------------------------------------------------

  /** The inner loop of the block renderers: each non-empty line of a
      child's rendering, stripped of its tree marks, under `prefix`. */
  function IndentLines(lines: seq<string>, prefix: string): string
    decreases |lines|
  {
    if lines == [] then ""
    else
      (if lines[0] != "" then prefix + LStrip(lines[0]) + "\n" else "")
      + IndentLines(lines[1..], prefix)
  }

  /** The outer loop: the re-indented lines of every child rendering. */
  function IndentBlock(renderings: seq<string>, prefix: string): string
    decreases |renderings|
  {
    if renderings == [] then ""
    else IndentLines(Split(renderings[0]), prefix) + IndentBlock(renderings[1..], prefix)
  }

  /** The lines `IndentLines` produces, one per non-empty input line. */
  function IndentedLines(lines: seq<string>, prefix: string): seq<string>
    decreases |lines|
  {
    if lines == [] then []
    else
      (if lines[0] != "" then [prefix + LStrip(lines[0])] else [])
      + IndentedLines(lines[1..], prefix)
  }

  /** The lines `IndentBlock` produces. */
  function BlockLines(renderings: seq<string>, prefix: string): seq<string>
    decreases |renderings|
  {
    if renderings == [] then []
    else IndentedLines(Split(renderings[0]), prefix) + BlockLines(renderings[1..], prefix)
  }

  lemma {:induction false} IndentLinesAsLines(lines: seq<string>, prefix: string)
    ensures IndentLines(lines, prefix) == Unlines(IndentedLines(lines, prefix))
    decreases |lines|
  {
    if lines != [] {
      IndentLinesAsLines(lines[1..], prefix);
      var head := if lines[0] != "" then [prefix + LStrip(lines[0])] else [];
      UnlinesAppend(head, IndentedLines(lines[1..], prefix));
    }
  }

  lemma {:induction false} IndentBlockAsLines(renderings: seq<string>, prefix: string)
    ensures IndentBlock(renderings, prefix) == Unlines(BlockLines(renderings, prefix))
    decreases |renderings|
  {
    if renderings != [] {
      IndentLinesAsLines(Split(renderings[0]), prefix);
      IndentBlockAsLines(renderings[1..], prefix);
      UnlinesAppend(IndentedLines(Split(renderings[0]), prefix), BlockLines(renderings[1..], prefix));
    }
  }

  /** Each produced line is the prefix and a stripped child line, so it
      holds no line feed when the prefix holds none. */
  lemma {:induction false} BlockLinesShape(renderings: seq<string>, prefix: string)
    requires '\n' !in prefix
    ensures forall k | 0 <= k < |BlockLines(renderings, prefix)| ::
              '\n' !in BlockLines(renderings, prefix)[k]
              && |prefix| <= |BlockLines(renderings, prefix)[k]|
              && BlockLines(renderings, prefix)[k][..|prefix|] == prefix
    decreases |renderings|
  {
    if renderings != [] {
      SplitPieces(renderings[0]);
      IndentedLinesShape(Split(renderings[0]), prefix);
      BlockLinesShape(renderings[1..], prefix);
    }
  }

  lemma {:induction false} IndentedLinesShape(lines: seq<string>, prefix: string)
    requires '\n' !in prefix
    requires forall k | 0 <= k < |lines| :: '\n' !in lines[k]
    ensures forall k | 0 <= k < |IndentedLines(lines, prefix)| ::
              '\n' !in IndentedLines(lines, prefix)[k]
              && |prefix| <= |IndentedLines(lines, prefix)[k]|
              && IndentedLines(lines, prefix)[k][..|prefix|] == prefix
    decreases |lines|
  {
    if lines != [] {
      IndentedLinesShape(lines[1..], prefix);
      if lines[0] != "" {
        var l := prefix + LStrip(lines[0]);
        assert '\n' !in LStrip(lines[0]) by {
          forall k | 0 <= k < |LStrip(lines[0])| ensures LStrip(lines[0])[k] != '\n' {
            assert LStrip(lines[0])[k] == lines[0][|lines[0]| - |LStrip(lines[0])| + k];
          }
        }
        assert l[..|prefix|] == prefix;
      }
    }
  }

  // ------------------------------------------------------------------
  // The renderers
  // ------------------------------------------------------------------

  const EndLine: string := "|-- End\n"
  const EndifLine: string := "|-- endif: ENDIF\n"
  const CommaLine: string := "|   |-- comma: ,\n"
  const ArgPrefix: string := "|   |-- "
  /** The prefix of the re-indented statements of an `if` section. */
  const SectionPrefix: string := "|   |   |-- "

  /** The header lines of a `let` statement. */
  function LetHeader(identifier: string): string {
    "declare_statement\n" + "|-- let: LET\n" + "|-- id: " + identifier + "\n" + "|-- equal: =\n"
  }

  /** The header and condition lines of an `if` statement; a binary
      condition is inlined under `|   |-- expression`. */
  function IfCondition(condition: Node): string
    decreases condition, 1
  {
    "if_statement\n" + "|-- if: IF\n" + "|-- condition\n"
    + (if condition.BinaryOperation? then
         ConditionOperationText(Render(condition.left), condition.operator, Render(condition.right))
       else "|   |-- " + Render(condition))
  }

  /** A binary condition inlined into an `if`, over its operands' renderings. */
  function ConditionOperationText(left: string, operator: string, right: string): string {
    "|   |-- expression\n"
    + "|   |   |-- " + left
    + "|   |   |-- operation: " + operator + "\n"
    + "|   |   |-- " + right
  }

  /** `If.__str__`, over its condition part, the renderings of its then
      statements and its else part. */
  function IfText(condition: string, thenRenderings: seq<string>, elsePart: string): string {
    condition + ThenSection(thenRenderings) + elsePart + EndifLine
  }

  /** `Program.__str__`, over the renderings of its statements. */
  function ProgramText(renderings: seq<string>): string {
    "Program\n" + "|-- statements_block\n" + IndentBlock(renderings, "|   |-- ") + EndLine
  }

  /** `Let.__str__` for an expression that is not a binary operation. */
  function LetValueText(identifier: string, value: string): string {
    LetHeader(identifier) + "|-- " + value
  }

  /** `Let.__str__` for a binary operation, inlined under `|-- expression`. */
  function LetOperationText(identifier: string, left: string, operator: string, right: string): string {
    LetHeader(identifier) + "|-- expression\n"
    + "|   |-- " + left
    + "|   |-- operation: " + operator + "\n"
    + "|   |-- " + right
  }

  /** `BinOp.__str__`, over its operands' renderings. */
  function OperationText(left: string, operator: string, right: string): string {
    "expression\n" + "|-- " + left + "|-- operation: " + operator + "\n" + "|-- " + right
  }

  /** `Call.__str__`, over the renderings of its arguments. */
  function CallText(name: string, argRenderings: seq<string>): string {
    "call_statement\n" + "|-- call: CALL\n" + "|-- id: " + name + "\n" + "|-- left_paren: (\n" + "|-- args\n"
    + ArgsFrom(argRenderings, 0)
    + "|-- right_paren: )\n"
  }

  /** The then section: three header lines and the re-indented statements. */
  function ThenSection(thenRenderings: seq<string>): string {
    "|-- then_statement\n" + "|   |-- then: THEN\n" + "|   |-- statements\n"
    + IndentBlock(thenRenderings, SectionPrefix)
  }

  /** The else section, present only for a non-empty else list. */
  function ElseSection(elseRenderings: seq<string>): string {
    "|-- else_statement\n" + "|   |-- else: ELSE\n" + "|   |-- statements\n"
    + IndentBlock(elseRenderings, SectionPrefix)
  }

  /** The argument loop of `CallStatement.__str__`: argument `i` under the
      argument prefix, followed by a comma line unless it is the last. */
  function ArgsFrom(renderings: seq<string>, i: nat): string
    requires i <= |renderings|
    decreases |renderings| - i
  {
    if i == |renderings| then ""
    else
      ArgPrefix + renderings[i] + (if i < |renderings| - 1 then CommaLine else "")
      + ArgsFrom(renderings, i + 1)
  }

  function RenderAll(nodes: seq<Node>): (r: seq<string>)
    ensures |r| == |nodes|
    ensures forall k | 0 <= k < |nodes| :: r[k] == Render(nodes[k])
    decreases nodes, 1
  {
    seq(|nodes|, k requires 0 <= k < |nodes| => Render(nodes[k]))
  }

  /** `__str__` of every node variant; every rendering is a non-empty
      sequence of complete lines. */
  function Render(n: Node): (r: string)
    ensures |r| > 0 && r[|r| - 1] == '\n'
    decreases n, 0
  {
    match n
    case Program(stmts) => ProgramText(RenderAll(stmts))
    case LetStatement(id, e) =>
      if e.BinaryOperation? then LetOperationText(id, Render(e.left), e.operator, Render(e.right))
      else LetValueText(id, Render(e))
    case BinaryOperation(l, op, r) => OperationText(Render(l), op, Render(r))
    case Number(v) => "number: " + v + "\n"
    case Identifier(name) => "id: " + name + "\n"
    case IfStatement(c, t, e) =>
      IfText(IfCondition(c), RenderAll(t),
             match e
             case ElseList(es) => if es != [] then ElseSection(RenderAll(es)) else ""
             case NoElse => "")
    case CallStatement(f, args) => CallText(f, RenderAll(args))
  }

  // ------------------------------------------------------------------
  // Properties of the renderings, stated on their lines
  // ------------------------------------------------------------------

  /** A number or an identifier whose text holds no line feed. */
  predicate IsLeaf(n: Node) {
    (n.Number? && '\n' !in n.value) || (n.Identifier? && '\n' !in n.name)
  }

  /** The one line a leaf renders as. */
  function LeafLine(n: Node): (r: string)
    requires IsLeaf(n)
    ensures '\n' !in r
  {
    if n.Number? then "number: " + n.value else "id: " + n.name
  }

  /** A string of complete lines splits into those lines and an empty last piece. */
  lemma LinesSplit(s: string, ls: seq<string>)
    requires NoLineFeeds(ls)
    requires s == Unlines(ls)
    ensures Split(s) == ls + [""]
  {
    SplitUnlines(ls, "");
    assert Unlines(ls) + "" == Unlines(ls);
  }

  /** Appending one more line at the end. */
  lemma {:induction false} UnlinesSnoc(ls: seq<string>, x: string)
    ensures Unlines(ls + [x]) == Unlines(ls) + x + "\n"
  {
    UnlinesAppend(ls, [x]);
    UnlinesCons(x, []);
  }

  /** Regrouping `s + p + (x + "\n")` as `s + (p + x) + "\n"`. */
  lemma AppendLine(s: string, p: string, x: string)
    ensures s + p + (x + "\n") == s + (p + x) + "\n"
  {
  }

  lemma {:induction false} UnlinesCons(x: string, ls: seq<string>)
    ensures Unlines([x] + ls) == x + "\n" + Unlines(ls)
  {
    assert ([x] + ls)[1..] == ls;
  }

  /** A number renders as `number: <value>` and an identifier as
      `id: <name>`, each a single line. */
  lemma LeafLines(n: Node)
    requires IsLeaf(n)
    ensures Split(Render(n)) == [LeafLine(n), ""]
  {
    UnlinesCons(LeafLine(n), []);
    LinesSplit(Render(n), [LeafLine(n)]);
  }

  lemma LeafRender(n: Node)
    requires IsLeaf(n)
    ensures Render(n) == LeafLine(n) + "\n"
  {
  }

  /** The lines of a binary operation over two leaves. */
  function BinaryOperationLeafLines(l: Node, op: string, r: Node): seq<string>
    requires IsLeaf(l) && IsLeaf(r)
  {
    ["expression", "|-- " + LeafLine(l), "|-- operation: " + op, "|-- " + LeafLine(r)]
  }

  lemma BinaryOperationRendersLines(l: Node, op: string, r: Node)
    requires IsLeaf(l) && IsLeaf(r)
    ensures Render(BinaryOperation(l, op, r)) == Unlines(BinaryOperationLeafLines(l, op, r))
  {
    assert Render(BinaryOperation(l, op, r)) == OperationText(Render(l), op, Render(r));
    LeafRender(l);
    LeafRender(r);
    OperationTextLines(LeafLine(l), op, LeafLine(r));
  }

  /** `OperationText` over two one-line renderings, as four lines. */
  lemma OperationTextLines(left: string, op: string, right: string)
    ensures OperationText(left + "\n", op, right + "\n")
            == Unlines(["expression", "|-- " + left, "|-- operation: " + op, "|-- " + right])
  {
    var a, b, c, d := "expression", "|-- " + left, "|-- operation: " + op, "|-- " + right;
    var s0 := "expression\n" + "|-- " + (left + "\n");
    var s1 := s0 + "|-- operation: " + op + "\n";
    var s2 := s1 + "|-- " + (right + "\n");
    UnlinesSnoc([], a);
    UnlinesSnoc([a], b);
    UnlinesSnoc([a, b], c);
    UnlinesSnoc([a, b, c], d);
    assert s0 == Unlines([a, b]) by {
      AppendLine("expression\n", "|-- ", left);
    }
    assert s1 == Unlines([a, b, c]) by {
      AppendLine(s0, "|-- operation: ", op);
    }
    assert s2 == Unlines([a, b, c, d]) by {
      assert [a, b, c] + [d] == [a, b, c, d];
      AppendLine(s1, "|-- ", right);
    }
  }

  /** A binary operation over two leaves renders as four lines: the
      header, the left operand, the operator and the right operand. */
  lemma BinaryOperationLines(l: Node, op: string, r: Node)
    requires IsLeaf(l) && IsLeaf(r) && '\n' !in op
    ensures Split(Render(BinaryOperation(l, op, r)))
            == ["expression", "|-- " + LeafLine(l), "|-- operation: " + op, "|-- " + LeafLine(r), ""]
  {
    BinaryOperationRendersLines(l, op, r);
    OperationLinesHaveNoLineFeed(l, op, r);
    LinesSplit(Render(BinaryOperation(l, op, r)), BinaryOperationLeafLines(l, op, r));
  }

  lemma OperationLinesHaveNoLineFeed(l: Node, op: string, r: Node)
    requires IsLeaf(l) && IsLeaf(r) && '\n' !in op
    ensures NoLineFeeds(BinaryOperationLeafLines(l, op, r))
  {
    NoLineFeedJoined("|-- ", LeafLine(l));
    NoLineFeedJoined("|-- operation: ", op);
    NoLineFeedJoined("|-- ", LeafLine(r));
  }

  const ProgramHeader: seq<string> := ["Program", "|-- statements_block"]

  lemma ProgramFrameHasNoLineFeed()
    ensures NoLineFeeds(ProgramHeader) && NoLineFeeds(["|-- End"])
  {
  }

  /** The lines a program renders as, before the empty last piece. */
  function ProgramLineList(stmts: seq<Node>): seq<string> {
    ProgramHeader + BlockLines(RenderAll(stmts), "|   |-- ") + ["|-- End"]
  }

  lemma ProgramRendersLines(stmts: seq<Node>)
    ensures Render(Program(stmts)) == Unlines(ProgramLineList(stmts))
  {
    var block := BlockLines(RenderAll(stmts), "|   |-- ");
    ProgramRenderUnfolds(stmts);
    IndentBlockAsLines(RenderAll(stmts), "|   |-- ");
    ProgramFrameIsLines();
    ProgramLineListJoins(stmts);
  }

  lemma ProgramRenderUnfolds(stmts: seq<Node>)
    ensures Render(Program(stmts))
            == "Program\n" + "|-- statements_block\n" + IndentBlock(RenderAll(stmts), "|   |-- ") + EndLine
  {
  }

  lemma ProgramFrameIsLines()
    ensures "Program\n" + "|-- statements_block\n" == Unlines(ProgramHeader)
    ensures EndLine == Unlines(["|-- End"])
  {
    UnlinesSnoc([], "Program");
    UnlinesSnoc(["Program"], "|-- statements_block");
    UnlinesSnoc([], "|-- End");
  }

  lemma ProgramLineListJoins(stmts: seq<Node>)
    ensures var block := BlockLines(RenderAll(stmts), "|   |-- ");
            Unlines(ProgramLineList(stmts)) == Unlines(ProgramHeader) + Unlines(block) + Unlines(["|-- End"])
  {
    var block := BlockLines(RenderAll(stmts), "|   |-- ");
    UnlinesAppend(ProgramHeader, block);
    UnlinesAppend(ProgramHeader + block, ["|-- End"]);
  }

  /** The lines of a program: the two header lines, every non-empty line of
      every statement's rendering stripped of its tree marks under
      `|   |-- `, then `|-- End`; each block line starts with that prefix. */
  lemma ProgramLines(stmts: seq<Node>)
    ensures var block := BlockLines(RenderAll(stmts), "|   |-- ");
            && Split(Render(Program(stmts))) == ProgramHeader + block + ["|-- End", ""]
            && forall k | 0 <= k < |block| :: |block[k]| >= 8 && block[k][..8] == "|   |-- "
  {
    var block := BlockLines(RenderAll(stmts), "|   |-- ");
    ProgramRendersLines(stmts);
    BlockLinesShape(RenderAll(stmts), "|   |-- ");
    var ls := ProgramLineList(stmts);
    ProgramFrameHasNoLineFeed();
    NoLineFeedsAppend(ProgramHeader, block);
    NoLineFeedsAppend(ProgramHeader + block, ["|-- End"]);
    LinesSplit(Render(Program(stmts)), ls);
    assert ls + [""] == ProgramHeader + block + ["|-- End", ""];
  }

  const ThenHeader: seq<string> := ["|-- then_statement", "|   |-- then: THEN", "|   |-- statements"]
  const ElseHeader: seq<string> := ["|-- else_statement", "|   |-- else: ELSE", "|   |-- statements"]

  lemma ThenHeaderHasNoLineFeed()
    ensures NoLineFeeds(ThenHeader)
  {
  }

  lemma ElseHeaderHasNoLineFeed()
    ensures NoLineFeeds(ElseHeader)
  {
  }

  /** The lines of the then section of an `if`. */
  function ThenLines(thenRenderings: seq<string>): seq<string> {
    ThenHeader + BlockLines(thenRenderings, SectionPrefix)
  }

  /** The lines of the else section of an `if`: none unless the else list
      is present and non-empty. */
  function ElseLines(e: ElseBranch): seq<string> {
    if e.ElseList? && e.statements != [] then
      ElseHeader + BlockLines(RenderAll(e.statements), SectionPrefix)
    else []
  }

  /** Three lines joined. */
  lemma {:induction false} ThreeLines(a: string, b: string, c: string)
    ensures Unlines([a, b, c]) == a + "\n" + b + "\n" + c + "\n"
  {
    UnlinesCons(a, [b, c]);
    UnlinesCons(b, [c]);
    UnlinesCons(c, []);
  }

  lemma ThenHeaderIsText()
    ensures "|-- then_statement\n" + "|   |-- then: THEN\n" + "|   |-- statements\n" == Unlines(ThenHeader)
  {
    ThreeLines("|-- then_statement", "|   |-- then: THEN", "|   |-- statements");
  }

  lemma ElseHeaderIsText()
    ensures "|-- else_statement\n" + "|   |-- else: ELSE\n" + "|   |-- statements\n" == Unlines(ElseHeader)
  {
    ThreeLines("|-- else_statement", "|   |-- else: ELSE", "|   |-- statements");
  }

  lemma ThenSectionIsLines(thenRenderings: seq<string>)
    ensures ThenSection(thenRenderings) == Unlines(ThenLines(thenRenderings))
  {
    ThenHeaderIsText();
    IndentBlockAsLines(thenRenderings, SectionPrefix);
    UnlinesAppend(ThenHeader, BlockLines(thenRenderings, SectionPrefix));
  }

  lemma ElseSectionIsLines(elseRenderings: seq<string>)
    ensures ElseSection(elseRenderings)
            == Unlines(ElseHeader + BlockLines(elseRenderings, SectionPrefix))
  {
    ElseHeaderIsText();
    IndentBlockAsLines(elseRenderings, SectionPrefix);
    UnlinesAppend(ElseHeader, BlockLines(elseRenderings, SectionPrefix));
  }

  /** An `if` renders as its condition part, then the lines of its then
      section, its else section (only for a non-empty else list) and the
      closing `|-- endif: ENDIF`. */
  lemma IfRendersLines(c: Node, t: seq<Node>, e: ElseBranch)
    ensures Render(IfStatement(c, t, e))
            == IfCondition(c) + Unlines(IfBodyLines(t, e))
  {
    var th := ThenLines(RenderAll(t));
    ThenSectionIsLines(RenderAll(t));
    assert EndifLine == Unlines(["|-- endif: ENDIF"]) by {
      UnlinesCons("|-- endif: ENDIF", []);
    }
    var elsePart := match e
      case ElseList(es) => if es != [] then ElseSection(RenderAll(es)) else ""
      case NoElse => "";
    assert elsePart == Unlines(ElseLines(e)) by {
      if e.ElseList? && e.statements != [] {
        ElseSectionIsLines(RenderAll(e.statements));
      }
    }
    UnlinesAppend(th, ElseLines(e));
    UnlinesAppend(th + ElseLines(e), ["|-- endif: ENDIF"]);
    assert Render(IfStatement(c, t, e)) == IfCondition(c) + ThenSection(RenderAll(t)) + elsePart + EndifLine;
    Regroup(IfCondition(c), ThenSection(RenderAll(t)), elsePart, EndifLine);
  }

  lemma IfConditionEndsLine(c: Node)
    ensures |IfCondition(c)| > 0 && IfCondition(c)[|IfCondition(c)| - 1] == '\n'
  {
  }

  /** The lines of an `if` after its condition part: the then section,
      the else section, and the closing line. */
  function IfBodyLines(t: seq<Node>, e: ElseBranch): seq<string> {
    ThenLines(RenderAll(t)) + ElseLines(e) + ["|-- endif: ENDIF"]
  }

  /** The lines of an `if`: the condition part, which ends a line, then
      the then section, the else section exactly when the else list is
      present and non-empty, and `|-- endif: ENDIF` last, each a whole
      line. */
  lemma IfLines(c: Node, t: seq<Node>, e: ElseBranch)
    ensures var x := IfCondition(c);
            && |x| > 0 && x[|x| - 1] == '\n'
            && Render(IfStatement(c, t, e)) == x + Unlines(IfBodyLines(t, e))
            && NoLineFeeds(IfBodyLines(t, e))
  {
    IfRendersLines(c, t, e);
    IfConditionEndsLine(c);
    IfSectionLinesHaveNoLineFeed(t, e);
  }

  lemma IfSectionLinesHaveNoLineFeed(t: seq<Node>, e: ElseBranch)
    ensures NoLineFeeds(IfBodyLines(t, e))
  {
    ThenHeaderHasNoLineFeed();
    SectionLinesHaveNoLineFeed(ThenHeader, RenderAll(t));
    if e.ElseList? && e.statements != [] {
      ElseHeaderHasNoLineFeed();
      SectionLinesHaveNoLineFeed(ElseHeader, RenderAll(e.statements));
    }
    NoLineFeedsAppend(ThenLines(RenderAll(t)), ElseLines(e));
    EndifHasNoLineFeed();
    NoLineFeedsAppend(ThenLines(RenderAll(t)) + ElseLines(e), ["|-- endif: ENDIF"]);
  }

  lemma EndifHasNoLineFeed()
    ensures NoLineFeeds(["|-- endif: ENDIF"])
  {
  }

  lemma SectionLinesHaveNoLineFeed(header: seq<string>, renderings: seq<string>)
    requires NoLineFeeds(header)
    ensures NoLineFeeds(header + BlockLines(renderings, SectionPrefix))
  {
    BlockLinesShape(renderings, SectionPrefix);
    NoLineFeedsAppend(header, BlockLines(renderings, SectionPrefix));
  }

  /** No line of `ls` holds a line feed. */
  predicate NoLineFeeds(ls: seq<string>) {
    forall k | 0 <= k < |ls| :: '\n' !in ls[k]
  }

  lemma NoLineFeedsAppend(a: seq<string>, b: seq<string>)
    requires NoLineFeeds(a) && NoLineFeeds(b)
    ensures NoLineFeeds(a + b)
  {
    forall k | 0 <= k < |a + b| ensures '\n' !in (a + b)[k] {
      if k < |a| { assert (a + b)[k] == a[k]; } else { assert (a + b)[k] == b[k - |a|]; }
    }
  }

  lemma Regroup3(a: string, b: string, c: string)
    ensures a + b + c == a + (b + c)
  {
  }

  lemma Regroup(a: string, b: string, c: string, d: string)
    ensures a + b + c + d == a + (b + c + d)
  {
  }

  /** The pieces the argument loop emits, in order: argument `j` at even
      position `2 * j`, and a comma line at every odd position, i.e.
      exactly between consecutive arguments. */
  function ArgPieces(renderings: seq<string>): (p: seq<string>)
    ensures |renderings| > 0 ==> |p| == 2 * |renderings| - 1
    ensures |renderings| == 0 ==> p == []
  {
    if renderings == [] then []
    else seq(2 * |renderings| - 1, j requires 0 <= j < 2 * |renderings| - 1 =>
               if j % 2 == 0 then ArgPrefix + renderings[j / 2] else CommaLine)
  }

  /** The concatenation of a list of pieces. */
  function Concat(ps: seq<string>): string
    decreases |ps|
  {
    if ps == [] then "" else ps[0] + Concat(ps[1..])
  }

  /** The argument loop emits exactly the alternating pieces: one piece per
      argument and `|arguments| - 1` comma lines between them. */
  lemma ArgsAlternate(renderings: seq<string>)
    ensures ArgsFrom(renderings, 0) == Concat(ArgPieces(renderings))
  {
    if renderings != [] {
      ArgsFromPieces(renderings, 0);
    }
  }

  lemma {:induction false} ArgsFromPieces(renderings: seq<string>, i: nat)
    requires i < |renderings|
    ensures ArgsFrom(renderings, i) == Concat(ArgPieces(renderings)[2 * i..])
    decreases |renderings| - i
  {
    if i == |renderings| - 1 {
      LastArgPiece(renderings, i);
    } else {
      ArgsFromPieces(renderings, i + 1);
      InnerArgPieces(renderings, i);
    }
  }

  lemma LastArgPiece(renderings: seq<string>, i: nat)
    requires i == |renderings| - 1
    ensures ArgsFrom(renderings, i) == Concat(ArgPieces(renderings)[2 * i..])
  {
    var p := ArgPieces(renderings);
    var arg := ArgPrefix + renderings[i];
    assert p[2 * i..] == [arg];
    assert ArgsFrom(renderings, i + 1) == "";
    assert Concat([arg]) == arg + Concat([]);
  }

  lemma InnerArgPieces(renderings: seq<string>, i: nat)
    requires i < |renderings| - 1
    requires ArgsFrom(renderings, i + 1) == Concat(ArgPieces(renderings)[2 * (i + 1)..])
    ensures ArgsFrom(renderings, i) == Concat(ArgPieces(renderings)[2 * i..])
  {
    var p := ArgPieces(renderings);
    var arg := ArgPrefix + renderings[i];
    var rest := Concat(p[2 * (i + 1)..]);
    ConcatTwo(p, 2 * i);
    ArgPiecePair(renderings, i);
    assert ArgsFrom(renderings, i) == arg + CommaLine + rest;
    Regroup3(arg, CommaLine, rest);
  }

  /** Argument `i` and the comma line after it, at positions `2 * i` and `2 * i + 1`. */
  lemma ArgPiecePair(renderings: seq<string>, i: nat)
    requires i < |renderings| - 1
    ensures ArgPieces(renderings)[2 * i] == ArgPrefix + renderings[i]
    ensures ArgPieces(renderings)[2 * i + 1] == CommaLine
  {
    Parity(i);
    ArgPieceAt(renderings, 2 * i);
    ArgPieceAt(renderings, 2 * i + 1);
  }

  lemma ArgPieceAt(renderings: seq<string>, j: nat)
    requires j < 2 * |renderings| - 1
    ensures ArgPieces(renderings)[j] == if j % 2 == 0 then ArgPrefix + renderings[j / 2] else CommaLine
  {
  }

  lemma Parity(i: nat)
    ensures (2 * i) % 2 == 0 && (2 * i) / 2 == i && (2 * i + 1) % 2 == 1
  {
  }

  /** Taking two pieces off the front of a suffix. */
  lemma ConcatTwo(p: seq<string>, j: nat)
    requires j + 2 <= |p|
    ensures Concat(p[j..]) == p[j] + (p[j + 1] + Concat(p[j + 2..]))
  {
    assert p[j..][1..] == p[j + 1..];
    assert p[j + 1..][1..] == p[j + 2..];
  }

  /** A call renders as its five header lines, the alternating argument
      and comma pieces, and the closing parenthesis line. */
  lemma CallRendersPieces(f: string, args: seq<Node>)
    ensures Render(CallStatement(f, args))
            == "call_statement\n" + "|-- call: CALL\n" + "|-- id: " + f + "\n" + "|-- left_paren: (\n" + "|-- args\n"
               + Concat(ArgPieces(RenderAll(args)))
               + "|-- right_paren: )\n"
  {
    ArgsAlternate(RenderAll(args));
  }

  /** The four header lines of a `let` statement. */
  function LetHeaderLines(identifier: string): seq<string> {
    ["declare_statement", "|-- let: LET", "|-- id: " + identifier, "|-- equal: ="]
  }

  lemma LetHeaderIsLines(identifier: string)
    ensures LetHeader(identifier) == Unlines(LetHeaderLines(identifier))
  {
    var a, b, c, d := "declare_statement", "|-- let: LET", "|-- id: " + identifier, "|-- equal: =";
    UnlinesSnoc([], a);
    UnlinesSnoc([a], b);
    UnlinesSnoc([a, b], c);
    UnlinesSnoc([a, b, c], d);
    assert [a, b, c] + [d] == [a, b, c, d];
  }

  /** The body lines of a `let` whose expression is a leaf or a binary
      operation over two leaves. */
  function LetBodyLines(e: Node): seq<string>
    requires IsLeaf(e) || (e.BinaryOperation? && IsLeaf(e.left) && IsLeaf(e.right))
  {
    if IsLeaf(e) then ["|-- " + LeafLine(e)]
    else ["|-- expression", "|   |-- " + LeafLine(e.left), "|   |-- operation: " + e.operator, "|   |-- " + LeafLine(e.right)]
  }

  lemma LetRendersLines(identifier: string, e: Node)
    requires IsLeaf(e) || (e.BinaryOperation? && IsLeaf(e.left) && IsLeaf(e.right))
    ensures Render(LetStatement(identifier, e)) == Unlines(LetHeaderLines(identifier) + LetBodyLines(e))
  {
    if IsLeaf(e) {
      LetLeafRendersLines(identifier, e);
    } else {
      LetOperationRendersLines(identifier, e);
    }
  }

  lemma LetLeafRendersLines(identifier: string, e: Node)
    requires IsLeaf(e)
    ensures Render(LetStatement(identifier, e)) == Unlines(LetHeaderLines(identifier) + ["|-- " + LeafLine(e)])
  {
    LetHeaderIsLines(identifier);
    UnlinesSnoc(LetHeaderLines(identifier), "|-- " + LeafLine(e));
    AppendLine(LetHeader(identifier), "|-- ", LeafLine(e));
  }

  lemma LetOperationRendersLines(identifier: string, e: Node)
    requires e.BinaryOperation? && IsLeaf(e.left) && IsLeaf(e.right)
    ensures Render(LetStatement(identifier, e)) == Unlines(LetHeaderLines(identifier) + LetBodyLines(e))
  {
    var h := LetHeaderLines(identifier);
    LetHeaderIsLines(identifier);
    var l, op, r := e.left, e.operator, e.right;
    var a, b, c, d := "|-- expression", "|   |-- " + LeafLine(l), "|   |-- operation: " + op, "|   |-- " + LeafLine(r);
    var s0 := LetHeader(identifier) + "|-- expression\n";
    var s1 := s0 + "|   |-- " + Render(l);
    var s2 := s1 + "|   |-- operation: " + op + "\n";
    var s3 := s2 + "|   |-- " + Render(r);
    assert Render(LetStatement(identifier, e)) == s3;
    assert s0 == Unlines(h + [a]) by {
      UnlinesSnoc(h, a);
    }
    assert s1 == Unlines(h + [a, b]) by {
      UnlinesSnoc(h + [a], b);
      assert h + [a] + [b] == h + [a, b];
      AppendLine(s0, "|   |-- ", LeafLine(l));
    }
    assert s2 == Unlines(h + [a, b, c]) by {
      UnlinesSnoc(h + [a, b], c);
      assert h + [a, b] + [c] == h + [a, b, c];
    }
    assert s3 == Unlines(h + [a, b, c, d]) by {
      UnlinesSnoc(h + [a, b, c], d);
      assert h + [a, b, c] + [d] == h + [a, b, c, d];
      AppendLine(s2, "|   |-- ", LeafLine(r));
    }
  }

  /** A `let` of a leaf, or of a binary operation over two leaves, renders
      as the four header lines followed by its body lines. */
  lemma LetLines(identifier: string, e: Node)
    requires '\n' !in identifier
    requires IsLeaf(e) || (e.BinaryOperation? && IsLeaf(e.left) && IsLeaf(e.right) && '\n' !in e.operator)
    ensures Split(Render(LetStatement(identifier, e)))
            == LetHeaderLines(identifier) + LetBodyLines(e) + [""]
  {
    LetRendersLines(identifier, e);
    var ls := LetHeaderLines(identifier) + LetBodyLines(e);
    assert forall k | 0 <= k < |ls| :: '\n' !in ls[k] by {
      LetLinesHaveNoLineFeed(identifier, e);
    }
    LinesSplit(Render(LetStatement(identifier, e)), ls);
  }

  lemma LetLinesHaveNoLineFeed(identifier: string, e: Node)
    requires '\n' !in identifier
    requires IsLeaf(e) || (e.BinaryOperation? && IsLeaf(e.left) && IsLeaf(e.right) && '\n' !in e.operator)
    ensures var ls := LetHeaderLines(identifier) + LetBodyLines(e);
            forall k | 0 <= k < |ls| :: '\n' !in ls[k]
  {
    var h := LetHeaderLines(identifier);
    assert '\n' !in h[0] && '\n' !in h[1] && '\n' !in h[3];
    NoLineFeedJoined("|-- id: ", identifier);
    var b := LetBodyLines(e);
    if IsLeaf(e) {
      NoLineFeedJoined("|-- ", LeafLine(e));
    } else {
      NoLineFeedJoined("|   |-- ", LeafLine(e.left));
      NoLineFeedJoined("|   |-- operation: ", e.operator);
      NoLineFeedJoined("|   |-- ", LeafLine(e.right));
      assert '\n' !in b[0];
    }
    var ls := h + b;
    forall k | 0 <= k < |ls| ensures '\n' !in ls[k] {
      if k < |h| { assert ls[k] == h[k]; } else { assert ls[k] == b[k - |h|]; }
    }
  }

  lemma NoLineFeedJoined(a: string, b: string)
    requires '\n' !in a && '\n' !in b
    ensures '\n' !in a + b
  {
  }

  /** The body of a `let` of a binary operation inlines that operation's
      own rendering: its header line under `|-- `, and its operand and
      operator lines shifted right by one level. */
  lemma LetInlinesOperation(l: Node, op: string, r: Node)
    requires IsLeaf(l) && IsLeaf(r)
    ensures var ops := BinaryOperationLeafLines(l, op, r);
            LetBodyLines(BinaryOperation(l, op, r))
            == ["|-- " + ops[0]] + seq(3, k requires 0 <= k < 3 => "|   " + ops[k + 1])
  {
    var ops := BinaryOperationLeafLines(l, op, r);
    var shifted := seq(3, k requires 0 <= k < 3 => "|   " + ops[k + 1]);
    ShiftedMarks();
    ShiftLine("|   ", "|-- ", LeafLine(l));
    ShiftLine("|   ", "|-- operation: ", op);
    ShiftLine("|   ", "|-- ", LeafLine(r));
    assert shifted == ["|   " + ops[1], "|   " + ops[2], "|   " + ops[3]];
    assert LetBodyLines(BinaryOperation(l, op, r)) == ["|-- " + ops[0]] + shifted;
  }

  /** The marks of a `let` body are those of an operation, one level deeper. */
  lemma ShiftedMarks()
    ensures "|   " + "|-- " == "|   |-- "
    ensures "|   " + "|-- operation: " == "|   |-- operation: "
    ensures "|-- " + "expression" == "|-- expression"
  {
  }

  lemma ShiftLine(indent: string, mark: string, x: string)
    ensures indent + (mark + x) == (indent + mark) + x
  {
  }

  // ------------------------------------------------------------------
  // Operands of any shape
  // ------------------------------------------------------------------

  /** A text that ends with a line feed splits into its lines and an empty
      last piece. */
  lemma {:induction false} CompleteLines(s: string)
    requires |s| > 0 && s[|s| - 1] == '\n'
    ensures var sp := Split(s);
            |sp| >= 2 && sp[|sp| - 1] == "" && Unlines(sp[..|sp| - 1]) == s
    decreases |s|
  {
    if |s| == 1 {
      assert s[1..] == [] && s == "\n";
      assert Split(s) == ["", ""];
      UnlinesCons("", []);
    } else {
      CompleteLines(s[1..]);
      var rest := Split(s[1..]);
      var ls' := rest[..|rest| - 1];
      assert rest == ls' + [""];
      if s[0] == '\n' {
        LineFeedThenLines(s, ls');
      } else {
        CharThenLines(s, ls');
      }
    }
  }

  /** One step of `CompleteLines`: a line feed in front adds an empty line. */
  lemma LineFeedThenLines(s: string, ls: seq<string>)
    requires |s| > 1 && s[0] == '\n'
    requires Split(s[1..]) == ls + [""] && Unlines(ls) == s[1..]
    ensures Split(s) == ([""] + ls) + [""] && Unlines([""] + ls) == s
  {
    UnlinesCons("", ls);
    assert s == [s[0]] + s[1..];
  }

  /** One step of `CompleteLines`: another character in front joins the
      first line. */
  lemma CharThenLines(s: string, ls: seq<string>)
    requires |s| > 1 && s[0] != '\n' && |ls| >= 1
    requires Split(s[1..]) == ls + [""] && Unlines(ls) == s[1..]
    ensures Split(s) == ([[s[0]] + ls[0]] + ls[1..]) + [""]
    ensures Unlines([[s[0]] + ls[0]] + ls[1..]) == s
  {
    CharThenSplit(s, ls);
    CharThenUnlines(s, ls);
  }

  lemma CharThenSplit(s: string, ls: seq<string>)
    requires |s| > 1 && s[0] != '\n' && |ls| >= 1
    requires Split(s[1..]) == ls + [""]
    ensures Split(s) == ([[s[0]] + ls[0]] + ls[1..]) + [""]
  {
    var rest := Split(s[1..]);
    assert Split(s) == [[s[0]] + rest[0]] + rest[1..];
    assert rest[0] == ls[0] && rest[1..] == ls[1..] + [""];
    LineListRegroup3([[s[0]] + ls[0]], ls[1..], [""]);
  }

  lemma LineListRegroup3(a: seq<string>, b: seq<string>, c: seq<string>)
    ensures a + (b + c) == (a + b) + c
  {
  }

  lemma CharThenUnlines(s: string, ls: seq<string>)
    requires |s| > 1 && |ls| >= 1 && Unlines(ls) == s[1..]
    ensures Unlines([[s[0]] + ls[0]] + ls[1..]) == s
  {
    var u := Unlines(ls[1..]);
    assert ls == [ls[0]] + ls[1..];
    calc {
      Unlines([[s[0]] + ls[0]] + ls[1..]);
      { UnlinesCons([s[0]] + ls[0], ls[1..]); }
      [s[0]] + ls[0] + "\n" + u;
      { Regroup([s[0]], ls[0], "\n", u); }
      [s[0]] + (ls[0] + "\n" + u);
      { UnlinesCons(ls[0], ls[1..]); }
      [s[0]] + s[1..];
    }
    assert s == [s[0]] + s[1..];
  }

  /** The lines of a text that ends with a line feed: its split pieces
      without the empty last one. */
  function LinesOf(s: string): (ls: seq<string>)
    requires |s| > 0 && s[|s| - 1] == '\n'
    ensures |ls| >= 1 && NoLineFeeds(ls) && Unlines(ls) == s
    ensures Split(s) == ls + [""]
  {
    CompleteLines(s);
    SplitPieces(s);
    Split(s)[..|Split(s)| - 1]
  }

  /** A mark written before a text of lines lands on its first line only. */
  lemma MarkFirstLine(mark: string, s: string)
    requires '\n' !in mark && |s| > 0 && s[|s| - 1] == '\n'
    ensures var ls := LinesOf(s);
            mark + s == Unlines([mark + ls[0]] + ls[1..]) && NoLineFeeds([mark + ls[0]] + ls[1..])
  {
    var ls := LinesOf(s);
    assert ls == [ls[0]] + ls[1..];
    UnlinesCons(ls[0], ls[1..]);
    UnlinesCons(mark + ls[0], ls[1..]);
    NoLineFeedJoined(mark, ls[0]);
    NoLineFeedsAppend([mark + ls[0]], ls[1..]);
  }

  /** Header lines, a list of lines, one more line and another list of
      lines, none holding a line feed, split back into those lines. */
  lemma AssembleLines(hs: seq<string>, ml: seq<string>, o: string, mr: seq<string>)
    requires NoLineFeeds(hs) && NoLineFeeds(ml) && '\n' !in o && NoLineFeeds(mr)
    ensures Split(Unlines(hs) + Unlines(ml) + (o + "\n") + Unlines(mr)) == hs + ml + [o] + mr + [""]
  {
    var a := hs + ml;
    var b := a + [o];
    var ls := b + mr;
    assert Unlines([o]) == o + "\n" by {
      UnlinesCons(o, []);
    }
    calc {
      Unlines(ls);
      { UnlinesAppend(b, mr); }
      Unlines(b) + Unlines(mr);
      { UnlinesAppend(a, [o]); }
      Unlines(a) + (o + "\n") + Unlines(mr);
      { UnlinesAppend(hs, ml); }
      Unlines(hs) + Unlines(ml) + (o + "\n") + Unlines(mr);
    }
    assert NoLineFeeds(ls) by {
      NoLineFeedsAppend(hs, ml);
      NoLineFeedsAppend(a, [o]);
      NoLineFeedsAppend(b, mr);
    }
    LinesSplit(Unlines(ls), ls);
  }

  /** The common shape of an operation's rendering: header lines, the left
      operand under `mark`, the operator line, the right operand under
      `mark`. */
  lemma OperandsLines(hs: seq<string>, mark: string, opMark: string, op: string, left: string, right: string)
    requires NoLineFeeds(hs) && '\n' !in mark && '\n' !in opMark + op
    requires |left| > 0 && left[|left| - 1] == '\n' && |right| > 0 && right[|right| - 1] == '\n'
    ensures var ll, rl := LinesOf(left), LinesOf(right);
            Split(Unlines(hs) + mark + left + opMark + op + "\n" + mark + right)
            == hs + [mark + ll[0]] + ll[1..] + [opMark + op, mark + rl[0]] + rl[1..] + [""]
  {
    var ll, rl := LinesOf(left), LinesOf(right);
    var ml, mr := [mark + ll[0]] + ll[1..], [mark + rl[0]] + rl[1..];
    var o := opMark + op;
    MarkFirstLine(mark, left);
    MarkFirstLine(mark, right);
    var text := Unlines(hs) + mark + left + opMark + op + "\n" + mark + right;
    OperationRegroup(Unlines(hs), mark, left, opMark, op, right);
    AssembleLines(hs, ml, o, mr);
    LineListRegroup(hs, mark + ll[0], ll[1..], o, mark + rl[0], rl[1..]);
  }

  lemma OperationRegroup(u: string, mark: string, left: string, opMark: string, op: string, right: string)
    ensures u + mark + left + opMark + op + "\n" + mark + right
            == u + (mark + left) + (opMark + op + "\n") + (mark + right)
  {
  }

  lemma LineListRegroup(hs: seq<string>, x: string, xs: seq<string>, o: string, y: string, ys: seq<string>)
    ensures hs + ([x] + xs) + [o] + ([y] + ys) + [""] == hs + [x] + xs + [o, y] + ys + [""]
  {
    assert [o, y] == [o] + [y];
  }

  /** A binary operation over operands of any shape renders as the
      `expression` line, the left operand's lines with `|-- ` before the
      first of them only, the operator line, and the right operand's lines
      the same way: a nested operand's further lines are not indented. */
  lemma OperationLines(l: Node, op: string, r: Node)
    requires '\n' !in op
    ensures var ll, rl := LinesOf(Render(l)), LinesOf(Render(r));
            Split(Render(BinaryOperation(l, op, r)))
            == ["expression", "|-- " + ll[0]] + ll[1..] + ["|-- operation: " + op, "|-- " + rl[0]] + rl[1..] + [""]
  {
    assert Render(BinaryOperation(l, op, r)) == OperationText(Render(l), op, Render(r));
    OperationTextSplit(Render(l), op, Render(r));
  }

  /** `OperationText` over two texts of complete lines, split into lines. */
  lemma OperationTextSplit(left: string, op: string, right: string)
    requires '\n' !in op
    requires |left| > 0 && left[|left| - 1] == '\n' && |right| > 0 && right[|right| - 1] == '\n'
    ensures var ll, rl := LinesOf(left), LinesOf(right);
            Split(OperationText(left, op, right))
            == ["expression", "|-- " + ll[0]] + ll[1..] + ["|-- operation: " + op, "|-- " + rl[0]] + rl[1..] + [""]
  {
    var ll := LinesOf(left);
    assert Unlines(["expression"]) == "expression\n" by {
      UnlinesCons("expression", []);
    }
    NoLineFeedJoined("|-- operation: ", op);
    OperandsLines(["expression"], "|-- ", "|-- operation: ", op, left, right);
    assert ["expression", "|-- " + ll[0]] == ["expression"] + ["|-- " + ll[0]];
  }

  /** A `let` of a binary operation over operands of any shape renders as
      its four header lines, `|-- expression`, and the operation's operand
      and operator lines with `|   |-- ` before the first line of each
      operand only. */
  lemma LetOperationLines(identifier: string, l: Node, op: string, r: Node)
    requires '\n' !in identifier && '\n' !in op
    ensures var ll, rl := LinesOf(Render(l)), LinesOf(Render(r));
            Split(Render(LetStatement(identifier, BinaryOperation(l, op, r))))
            == LetHeaderLines(identifier) + ["|-- expression", "|   |-- " + ll[0]] + ll[1..]
               + ["|   |-- operation: " + op, "|   |-- " + rl[0]] + rl[1..] + [""]
  {
    LetOperationRender(identifier, l, op, r);
    LetOperationTextSplit(identifier, Render(l), op, Render(r));
  }

  /** `LetOperationText` over two texts of complete lines, split into lines. */
  lemma LetOperationTextSplit(identifier: string, left: string, op: string, right: string)
    requires '\n' !in identifier && '\n' !in op
    requires |left| > 0 && left[|left| - 1] == '\n' && |right| > 0 && right[|right| - 1] == '\n'
    ensures var ll, rl := LinesOf(left), LinesOf(right);
            Split(LetOperationText(identifier, left, op, right))
            == LetHeaderLines(identifier) + ["|-- expression", "|   |-- " + ll[0]] + ll[1..]
               + ["|   |-- operation: " + op, "|   |-- " + rl[0]] + rl[1..] + [""]
  {
    var ll := LinesOf(left);
    var h := LetHeaderLines(identifier);
    var hs := h + ["|-- expression"];
    LetExpressionHeader(identifier);
    NoLineFeedJoined("|   |-- operation: ", op);
    OperandsLines(hs, "|   |-- ", "|   |-- operation: ", op, left, right);
    assert hs + ["|   |-- " + ll[0]] == h + ["|-- expression", "|   |-- " + ll[0]];
  }

  lemma LetOperationRender(identifier: string, l: Node, op: string, r: Node)
    ensures Render(LetStatement(identifier, BinaryOperation(l, op, r)))
            == LetOperationText(identifier, Render(l), op, Render(r))
  {
  }

  /** The header lines of a `let` of an operation, `|-- expression` included. */
  lemma LetExpressionHeader(identifier: string)
    requires '\n' !in identifier
    ensures var hs := LetHeaderLines(identifier) + ["|-- expression"];
            Unlines(hs) == LetHeader(identifier) + "|-- expression\n" && NoLineFeeds(hs)
  {
    var h := LetHeaderLines(identifier);
    LetHeaderIsLines(identifier);
    UnlinesSnoc(h, "|-- expression");
    LetHeaderHasNoLineFeed(identifier);
    NoLineFeedsAppend(h, ["|-- expression"]);
  }

  lemma LetHeaderHasNoLineFeed(identifier: string)
    requires '\n' !in identifier
    ensures NoLineFeeds(LetHeaderLines(identifier))
  {
    var hs := LetHeaderLines(identifier);
    NoLineFeedJoined("|-- id: ", identifier);
    assert '\n' !in hs[0] && '\n' !in hs[1] && '\n' !in hs[3];
  }

  /** A `let` of an expression that is not a binary operation renders as
      its four header lines and the expression's lines with `|-- ` before
      the first of them only. */
  lemma LetValueLines(identifier: string, e: Node)
    requires '\n' !in identifier && !e.BinaryOperation?
    ensures var el := LinesOf(Render(e));
            Split(Render(LetStatement(identifier, e)))
            == LetHeaderLines(identifier) + ["|-- " + el[0]] + el[1..] + [""]
  {
    var hs := LetHeaderLines(identifier);
    var value := Render(e);
    var el := LinesOf(value);
    var me := ["|-- " + el[0]] + el[1..];
    LetValueRender(identifier, e);
    LetValueTextLines(identifier, value);
    LinesSplit(LetValueText(identifier, value), hs + me);
    assert hs + me + [""] == hs + ["|-- " + el[0]] + el[1..] + [""];
  }

  lemma LetValueTextLines(identifier: string, value: string)
    requires '\n' !in identifier && |value| > 0 && value[|value| - 1] == '\n'
    ensures var hs, el := LetHeaderLines(identifier), LinesOf(value);
            var me := ["|-- " + el[0]] + el[1..];
            LetValueText(identifier, value) == Unlines(hs + me) && NoLineFeeds(hs + me)
  {
    var hs, el := LetHeaderLines(identifier), LinesOf(value);
    var me := ["|-- " + el[0]] + el[1..];
    LetHeaderHasNoLineFeed(identifier);
    MarkFirstLine("|-- ", value);
    LetHeaderIsLines(identifier);
    UnlinesAppend(hs, me);
    NoLineFeedsAppend(hs, me);
  }

  lemma LetValueRender(identifier: string, e: Node)
    requires !e.BinaryOperation?
    ensures Render(LetStatement(identifier, e)) == LetValueText(identifier, Render(e))
  {
  }
}
