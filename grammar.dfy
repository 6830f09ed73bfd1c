/** Specification of the phase-2 recursive-descent parser (class `Parser`
    of Compiler_Project_phase2.py) as functions over the token list.

    Each parsing function takes the token list and the cursor position it
    starts at, and yields the node it builds with the cursor position it
    leaves behind, or the failure it stops with.  A raised "Parse error" is
    an `Error` carrying its message and the cursor position at which it was
    raised (a position at or past the end is "end of input").  Where the
    parser's statement loops would spin forever on a token that starts no
    statement, the outcome is `Diverges` at that token. */
module Grammar {
  import opened Options
  import S = Scanning
  import opened AstNodes

  datatype Message =
    | ExpectedBegin
    | ExpectedEnd
    | ExpectedIdentifierAfterLet
    | ExpectedEqualAfterIdentifier
    | ExpectedThen
    | ExpectedEndif
    | ExpectedFunctionName
    | ExpectedLeftParen
    | ExpectedRightParenAfterArguments
    | ExpectedRightParenAfterExpression
    | ExpectedFactor

  datatype Failure = Error(message: Message, at: nat) | Diverges(at: nat)

  datatype Parsed<T> = Parsed(value: T, next: nat) | Failed(failure: Failure)

  /** `check(kind)`: the token at `p` exists and has that kind. */
  predicate Check(ts: seq<S.Token>, p: nat, k: S.Kind) {
    p < |ts| && ts[p].kind == k
  }

  /** The operators `parse_expression` keeps: `+` and `-`. */
  predicate IsAdditiveOp(op: string) {
    op == "+" || op == "-"
  }

  /** The operators `parse_term` keeps: `*` and `/`. */
  predicate IsMultiplicativeOp(op: string) {
    op == "*" || op == "/"
  }

  /** An `operator` token at `p` that continues an expression. */
  predicate AdditiveAt(ts: seq<S.Token>, p: nat) {
    Check(ts, p, S.Operator) && IsAdditiveOp(ts[p].lexeme)
  }

  /** An `operator` token at `p` that continues a term. */
  predicate MultiplicativeAt(ts: seq<S.Token>, p: nat) {
    Check(ts, p, S.Operator) && IsMultiplicativeOp(ts[p].lexeme)
  }

  // ------------------------------------------------------------------
  // Expressions
  // ------------------------------------------------------------------

  /** `parse_factor`: a number, an identifier, or a parenthesised
      expression (which yields the inner expression itself). */
  function ParseFactor(ts: seq<S.Token>, p: nat): (r: Parsed<Node>)
    requires p <= |ts|
    ensures r.Parsed? ==> p < r.next <= |ts|
    ensures r.Failed? ==> r.failure.at >= p
    decreases |ts| - p, 0
  {
    if Check(ts, p, S.Number) then Parsed(Number(ts[p].lexeme), p + 1)
    else if Check(ts, p, S.Identifier) then Parsed(Identifier(ts[p].lexeme), p + 1)
    else if Check(ts, p, S.LeftParen) then
      match ParseExpression(ts, p + 1)
      case Failed(f) => Failed(f)
      case Parsed(e, q) =>
        if Check(ts, q, S.RightParen) then Parsed(e, q + 1)
        else Failed(Error(ExpectedRightParenAfterExpression, q))
    else Failed(Error(ExpectedFactor, p))
  }

  /** The loop of `parse_term` with `left` built so far: an `operator`
      token other than `*` or `/` is put back and ends the term. */
  function TermLoop(ts: seq<S.Token>, left: Node, p: nat): (r: Parsed<Node>)
    requires p <= |ts|
    ensures r.Parsed? ==> p <= r.next <= |ts|
    ensures r.Failed? ==> r.failure.at >= p
    decreases |ts| - p, 1
  {
    if !MultiplicativeAt(ts, p) then Parsed(left, p)
    else
      match ParseFactor(ts, p + 1)
      case Failed(f) => Failed(f)
      case Parsed(right, q) => TermLoop(ts, BinaryOperation(left, ts[p].lexeme, right), q)
  }

  /** `parse_term`: factors joined by `*` and `/`, left-associative. */
  function ParseTerm(ts: seq<S.Token>, p: nat): (r: Parsed<Node>)
    requires p <= |ts|
    ensures r.Parsed? ==> p < r.next <= |ts|
    ensures r.Failed? ==> r.failure.at >= p
    decreases |ts| - p, 2
  {
    match ParseFactor(ts, p)
    case Failed(f) => Failed(f)
    case Parsed(left, q) => TermLoop(ts, left, q)
  }

  /** The loop of `parse_expression` with `left` built so far: an
      `operator` token other than `+` or `-` is put back. */
  function ExpressionLoop(ts: seq<S.Token>, left: Node, p: nat): (r: Parsed<Node>)
    requires p <= |ts|
    ensures r.Parsed? ==> p <= r.next <= |ts|
    ensures r.Failed? ==> r.failure.at >= p
    decreases |ts| - p, 3
  {
    if !AdditiveAt(ts, p) then Parsed(left, p)
    else
      match ParseTerm(ts, p + 1)
      case Failed(f) => Failed(f)
      case Parsed(right, q) => ExpressionLoop(ts, BinaryOperation(left, ts[p].lexeme, right), q)
  }

  /** `parse_expression`: terms joined by `+` and `-`, left-associative. */
  function ParseExpression(ts: seq<S.Token>, p: nat): (r: Parsed<Node>)
    requires p <= |ts|
    ensures r.Parsed? ==> p < r.next <= |ts|
    ensures r.Failed? ==> r.failure.at >= p
    decreases |ts| - p, 4
  {
    match ParseTerm(ts, p)
    case Failed(f) => Failed(f)
    case Parsed(left, q) => ExpressionLoop(ts, left, q)
  }

  /** The token kinds `parse_condition` accepts as a comparison. */
  predicate IsComparison(k: S.Kind) {
    k == S.Operator || k == S.Equal || k == S.NotEqual
  }

  /** `parse_condition`: an expression, optionally followed by one
      `operator`, `equal` or `not_equal` token and a second expression. */
  function ParseCondition(ts: seq<S.Token>, p: nat): (r: Parsed<Node>)
    requires p <= |ts|
    ensures r.Parsed? ==> p < r.next <= |ts|
    ensures r.Failed? ==> r.failure.at >= p
    decreases |ts| - p, 5
  {
    match ParseExpression(ts, p)
    case Failed(f) => Failed(f)
    case Parsed(left, q) =>
      if q < |ts| && IsComparison(ts[q].kind) then
        match ParseExpression(ts, q + 1)
        case Failed(f) => Failed(f)
        case Parsed(right, q2) => Parsed(BinaryOperation(left, ts[q].lexeme, right), q2)
      else Parsed(left, q)
  }

  // ------------------------------------------------------------------
  // Statements
  // ------------------------------------------------------------------

  /** `parse_let_statement`, entered after the `let` token. */
  function ParseLet(ts: seq<S.Token>, p: nat): (r: Parsed<Node>)
    requires p <= |ts|
    ensures r.Parsed? ==> p < r.next <= |ts|
    ensures r.Failed? ==> r.failure.at >= p
    decreases |ts| - p, 5
  {
    if !Check(ts, p, S.Identifier) then Failed(Error(ExpectedIdentifierAfterLet, p))
    else if !Check(ts, p + 1, S.Equal) then Failed(Error(ExpectedEqualAfterIdentifier, p + 1))
    else
      match ParseExpression(ts, p + 2)
      case Failed(f) => Failed(f)
      case Parsed(e, q) => Parsed(LetStatement(ts[p].lexeme, e), q)
  }

  /** The argument loop of `parse_call_statement` with `args` collected so
      far: an expression, then another round after each comma. */
  function ArgumentLoop(ts: seq<S.Token>, args: seq<Node>, p: nat): (r: Parsed<seq<Node>>)
    requires p <= |ts|
    ensures r.Parsed? ==> p < r.next <= |ts| && |r.value| > |args| && r.value[..|args|] == args
    ensures r.Failed? ==> r.failure.at >= p
    decreases |ts| - p, 5
  {
    match ParseExpression(ts, p)
    case Failed(f) => Failed(f)
    case Parsed(e, q) =>
      if Check(ts, q, S.Comma) then ArgumentLoop(ts, args + [e], q + 1)
      else Parsed(args + [e], q)
  }

  /** `parse_call_statement`, entered after the `call` token. */
  function ParseCall(ts: seq<S.Token>, p: nat): (r: Parsed<Node>)
    requires p <= |ts|
    ensures r.Parsed? ==> p < r.next <= |ts|
    ensures r.Failed? ==> r.failure.at >= p
    decreases |ts| - p, 6
  {
    if !Check(ts, p, S.Identifier) then Failed(Error(ExpectedFunctionName, p))
    else if !Check(ts, p + 1, S.LeftParen) then Failed(Error(ExpectedLeftParen, p + 1))
    else
      var arguments :=
        if Check(ts, p + 2, S.RightParen) then Parsed([], p + 2) else ArgumentLoop(ts, [], p + 2);
      match arguments
      case Failed(f) => Failed(f)
      case Parsed(args, q) =>
        if Check(ts, q, S.RightParen) then Parsed(CallStatement(ts[p].lexeme, args), q + 1)
        else Failed(Error(ExpectedRightParenAfterArguments, q))
  }

  /** `if self.else_branch` keeps a non-empty else list, `None` otherwise. */
  function ElseOf(statements: seq<Node>): ElseBranch {
    if statements != [] then ElseList(statements) else NoElse
  }

  /** `parse_if_statement`, entered after the `if` token. */
  function ParseIf(ts: seq<S.Token>, p: nat): (r: Parsed<Node>)
    requires p <= |ts|
    ensures r.Parsed? ==> p < r.next <= |ts|
    ensures r.Failed? ==> r.failure.at >= p
    decreases |ts| - p, 6
  {
    match ParseCondition(ts, p)
    case Failed(f) => Failed(f)
    case Parsed(c, q) => IfAfterCondition(ts, c, q)
  }

  /** The rest of `parse_if_statement` once the condition `c` has been
      read up to `q`: `then` and the then-list. */
  function IfAfterCondition(ts: seq<S.Token>, c: Node, q: nat): (r: Parsed<Node>)
    requires q <= |ts|
    ensures r.Parsed? ==> q < r.next <= |ts|
    ensures r.Failed? ==> r.failure.at >= q
    decreases |ts| - q, 6
  {
    if !Check(ts, q, S.Kw(S.Then)) then Failed(Error(ExpectedThen, q))
    else
      match StatementsUntil(ts, q + 1, [], {S.Kw(S.Else), S.Kw(S.Endif)})
      case Failed(f) => Failed(f)
      case Parsed(thenList, q2) => IfAfterThen(ts, c, thenList, q2)
  }

  /** The end of `parse_if_statement` once the then-list has been read up
      to `q2`: the optional else-list and `endif`. */
  function IfAfterThen(ts: seq<S.Token>, c: Node, thenList: seq<Node>, q2: nat): (r: Parsed<Node>)
    requires q2 <= |ts|
    ensures r.Parsed? ==> q2 < r.next <= |ts|
    ensures r.Failed? ==> r.failure.at >= q2
    decreases |ts| - q2, 6
  {
    var elsePart :=
      if Check(ts, q2, S.Kw(S.Else)) then StatementsUntil(ts, q2 + 1, [], {S.Kw(S.Endif)})
      else Parsed([], q2);
    match elsePart
    case Failed(f) => Failed(f)
    case Parsed(elseList, q3) =>
      if Check(ts, q3, S.Kw(S.Endif)) then Parsed(IfStatement(c, thenList, ElseOf(elseList)), q3 + 1)
      else Failed(Error(ExpectedEndif, q3))
  }

  /** A parsed statement as `parse_statement` returns it. */
  function AsStatement(r: Parsed<Node>): (w: Parsed<Option<Node>>)
    ensures w.Failed? <==> r.Failed?
  {
    match r
    case Failed(f) => Failed(f)
    case Parsed(s, q) => Parsed(Some(s), q)
  }

  /** `parse_statement`: a `let`, `if` or `call` statement, or `None`
      without consuming anything. */
  function ParseStatement(ts: seq<S.Token>, p: nat): (r: Parsed<Option<Node>>)
    requires p <= |ts|
    ensures r.Parsed? && r.value.Some? ==> p < r.next <= |ts|
    ensures r.Parsed? && r.value.None? ==> r.next == p
    ensures r.Failed? ==> r.failure.at >= p
    decreases |ts| - p, 7
  {
    if Check(ts, p, S.Kw(S.Let)) then AsStatement(ParseLet(ts, p + 1))
    else if Check(ts, p, S.Kw(S.If)) then AsStatement(ParseIf(ts, p + 1))
    else if Check(ts, p, S.Kw(S.Call)) then AsStatement(ParseCall(ts, p + 1))
    else Parsed(None, p)
  }

  /** A statement loop (`while not at end and not check(stop)`) with
      `acc` collected so far.  A token that starts no statement and is
      not a stop makes the loop call `parse_statement` forever. */
  function StatementsUntil(ts: seq<S.Token>, p: nat, acc: seq<Node>, stops: set<S.Kind>): (r: Parsed<seq<Node>>)
    requires p <= |ts|
    ensures r.Parsed? ==> p <= r.next <= |ts| && |r.value| >= |acc| && r.value[..|acc|] == acc
    ensures r.Parsed? ==> r.next == |ts| || ts[r.next].kind in stops
    ensures r.Failed? ==> r.failure.at >= p
    decreases |ts| - p, 8
  {
    if p == |ts| || ts[p].kind in stops then Parsed(acc, p)
    else
      match ParseStatement(ts, p)
      case Failed(f) => Failed(f)
      case Parsed(None, _) => Failed(Diverges(p))
      case Parsed(Some(s), q) => StatementsUntil(ts, q, acc + [s], stops)
  }

  /** `parse` from cursor `p`: `begin`, statements up to `end`, `end`.
      Tokens after `end` are not looked at. */
  function ParseProgram(ts: seq<S.Token>, p: nat): (r: Parsed<Node>)
    requires p <= |ts|
    ensures r.Parsed? ==> p < r.next <= |ts| && r.value.Program?
  {
    if !Check(ts, p, S.Kw(S.Begin)) then Failed(Error(ExpectedBegin, p))
    else
      match StatementsUntil(ts, p + 1, [], {S.Kw(S.End)})
      case Failed(f) => Failed(f)
      case Parsed(stmts, q) =>
        if Check(ts, q, S.Kw(S.End)) then Parsed(Program(stmts), q + 1)
        else Failed(Error(ExpectedEnd, q))
  }
}
