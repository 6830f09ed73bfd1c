/** Specification of the syntax validator (class `SyntaxValidator` of
    syntax_validation.py) as functions over the token list and the
    validator's state.

    The validator reads `Token` objects (type, lexeme, line, position) up
    to an end-of-file token, builds a labelled parse tree, keeps a stack of
    the blocks it is inside, and remembers whether it is inside a function
    and whether a RETURN has been validated since the function began.
    Each validating function takes the token list and the state it starts
    in, and yields the tree node it builds with the state it leaves behind,
    or the syntax error it raises.  A syntax error carries the line and
    position of the token it was raised at, as the source does, and also
    that token's index in the list. */
module Validation {
  import opened Options

  /** The token types the validator looks at; `Other` stands for the
      remaining members of the enumeration, which it never names. */
  datatype TokenType =
    | Let | If | Then | Else | Endif | While | Do | Endwhile | For | To | Step | Endfor
    | Func | Begin | Return | End | Call | Repeat | Until
    | Identifier | Number | String
    | Equal | NotEqual | Greater | Less | GreaterEqual | SmallerEqual
    | Plus | Minus | Multiply | Divide
    | PlusEqual | MinusEqual | MultiplyEqual | DivideEqual
    | LeftParen | RightParen | LeftBracket | RightBracket | Comma
    | Eof
    | Other(name: string)

  datatype Token = Token(tokenType: TokenType, lexeme: string, line: int, position: int)

  /** The tags pushed on the scope stack. */
  datatype Scope = IfScope | WhileScope | ForScope | DoScope | RepeatScope | FuncScope

  /** The labels of parse-tree nodes. */
  datatype Label =
    | Program | Assignment | LetStatement | Expression | Condition
    | IfStatement | ThenBlock | ElseBlock | Block
    | WhileStatement | ForStatement | DoWhileStatement | RepeatUntilStatement
    | FunctionDefinition | ReturnStatement
    | AssignOperator(symbol: string)
    | IdentifierNamed(name: string)
    | Literal(lexeme: string)
    | Operator(lexeme: string)

  /** A parse-tree node; `NoTree` is the `None` that some validators
      return and that `add_child` then appends like any node. */
  datatype Tree = Node(kind: Label, children: seq<Tree>) | NoTree

  function Leaf(kind: Label): Tree {
    Node(kind, [])
  }

  datatype Message =
    | UnexpectedToken(lexeme: string)
    | Missing(expected: TokenType)
    | ExpectedAssignmentOperator
    | ExpectedTerm
    | ExpectedComparison(got: string)
    | MissingReturn
    | Unclosed(scope: Scope)

  /** A raised `SyntaxError`: its message, the line and position of the
      token it was raised at, and that token's index. */
  datatype SyntaxError = SyntaxError(message: Message, line: int, position: int, at: nat)

  datatype State = State(current: nat, scopes: seq<Scope>, inFunction: bool, hadReturn: bool)

  datatype Outcome<T> = Done(value: T, after: State) | Raised(error: SyntaxError) {
    predicate IsFailure() {
      Raised?
    }

    function PropagateFailure<U>(): Outcome<U>
      requires Raised?
    {
      Raised(error)
    }

    function Extract(): (T, State)
      requires Done?
    {
      (value, after)
    }
  }

  /** The token list ends with an end-of-file token. */
  predicate Terminated(ts: seq<Token>) {
    |ts| > 0 && ts[|ts| - 1].tokenType == Eof
  }

  /** A token list as the validator receives it. */
  type Tokens = ts: seq<Token> | Terminated(ts) witness [Token(Eof, "", 0, 0)]

  /** The tree `validate` grows: always the `Program` node. */
  type ProgramTree = t: Tree | t.Node? && t.kind == Program witness Node(Program, [])

  /** The cursor is on a token of a terminated list. */
  predicate Fits(ts: seq<Token>, s: State) {
    Terminated(ts) && s.current < |ts|
  }

  // ------------------------------------------------------------------
  // What each validator may do to the state
  // ------------------------------------------------------------------

  /** Only the cursor moves, by at least one token; errors are raised at
      or after the start. */
  predicate Reads<T>(ts: seq<Token>, s: State, r: Outcome<T>) {
    (r.Done? ==> Fits(ts, r.after) && s.current < r.after.current && r.after == s.(current := r.after.current))
    && (r.Raised? ==> r.error.at >= s.current)
  }

  /** Only the cursor moves, possibly not at all. */
  predicate ReadsSome<T>(ts: seq<Token>, s: State, r: Outcome<T>) {
    (r.Done? ==> Fits(ts, r.after) && s.current <= r.after.current && r.after == s.(current := r.after.current))
    && (r.Raised? ==> r.error.at >= s.current)
  }

  /** The cursor moves by at least one token and the scope stack is as it
      was. */
  predicate Closes<T>(ts: seq<Token>, s: State, r: Outcome<T>) {
    (r.Done? ==> Fits(ts, r.after) && s.current < r.after.current && r.after.scopes == s.scopes)
    && (r.Raised? ==> r.error.at >= s.current)
  }

  /** The scope stack is as it was; the cursor has not moved back. */
  predicate ClosesSome<T>(ts: seq<Token>, s: State, r: Outcome<T>) {
    (r.Done? ==> Fits(ts, r.after) && s.current <= r.after.current && r.after.scopes == s.scopes)
    && (r.Raised? ==> r.error.at >= s.current)
  }

  // ------------------------------------------------------------------
  // Cursor helpers
  // ------------------------------------------------------------------

  function Peek(ts: seq<Token>, s: State): Token
    requires Fits(ts, s)
  {
    ts[s.current]
  }

  /** `_is_at_end`: the current token is the end-of-file token. */
  predicate AtEnd(ts: seq<Token>, s: State)
    requires Fits(ts, s)
  {
    Peek(ts, s).tokenType == Eof
  }

  /** `_check`: false at the end of input. */
  predicate CheckType(ts: seq<Token>, s: State, t: TokenType)
    requires Fits(ts, s)
  {
    !AtEnd(ts, s) && Peek(ts, s).tokenType == t
  }

  /** `_advance` off a token that is not the end-of-file token. */
  function Advance(ts: seq<Token>, s: State): (r: (Token, State))
    requires Fits(ts, s) && !AtEnd(ts, s)
    ensures Fits(ts, r.1) && r.1 == s.(current := s.current + 1) && r.0 == ts[s.current]
  {
    (ts[s.current], s.(current := s.current + 1))
  }

  /** A syntax error at the current token. */
  function RaiseAt<T>(ts: seq<Token>, s: State, m: Message): Outcome<T>
    requires Fits(ts, s)
  {
    Raised(SyntaxError(m, Peek(ts, s).line, Peek(ts, s).position, s.current))
  }

  /** `_match`: consumes the current token exactly when it has type `t`. */
  function MatchType(ts: seq<Token>, s: State, t: TokenType): (r: (bool, State))
    requires Fits(ts, s)
    ensures Fits(ts, r.1) && r.0 == CheckType(ts, s, t)
    ensures r.1 == s.(current := s.current + (if r.0 then 1 else 0))
  {
    if CheckType(ts, s, t) then (true, Advance(ts, s).1) else (false, s)
  }

  /** `_consume`: the current token when it has type `t`, one token
      further on; otherwise an error at the current token. */
  function Consume(ts: seq<Token>, s: State, t: TokenType): (r: Outcome<Token>)
    requires Fits(ts, s)
    ensures Reads(ts, s, r)
  {
    if CheckType(ts, s, t) then Done(Peek(ts, s), Advance(ts, s).1)
    else RaiseAt(ts, s, Missing(t))
  }

  function Push(s: State, tag: Scope): State {
    s.(scopes := s.scopes + [tag])
  }

  function Pop(s: State): State
    requires |s.scopes| > 0
  {
    s.(scopes := s.scopes[..|s.scopes| - 1])
  }

  /** An operator leaf of an expression node. */
  predicate OperatorLeaf(t: Tree) {
    t.Node? && t.kind.Operator? && t.children == []
  }

  /** The children of an expression node: terms at even places, operator
      leaves at odd places, and a term at each end. */
  predicate Alternating(children: seq<Tree>) {
    |children| % 2 == 1 && forall i :: 0 <= i < |children| ==> (OperatorLeaf(children[i]) <==> i % 2 == 1)
  }

  /** The token types `_is_arithmetic_operator` accepts. */
  predicate ArithmeticOperator(t: TokenType) {
    t.Plus? || t.Minus? || t.Multiply? || t.Divide?
  }

  /** The comparison operators `_validate_condition` accepts. */
  predicate Comparison(t: TokenType) {
    t.Equal? || t.NotEqual? || t.Greater? || t.Less? || t.GreaterEqual? || t.SmallerEqual?
  }

  // ------------------------------------------------------------------
  // Expressions and conditions
  // ------------------------------------------------------------------

  /** The effective `_validate_term`: a number or string literal, an
      identifier, a parenthesised expression (its own node), an array
      literal or a call; the last two yield `None`. */
  function ValidateTerm(ts: seq<Token>, s: State): (r: Outcome<Tree>)
    requires Fits(ts, s)
    ensures Reads(ts, s, r)
    decreases |ts| - s.current, 0
  {
    if CheckType(ts, s, Number) || CheckType(ts, s, String) then
      Done(Leaf(Literal(Peek(ts, s).lexeme)), Advance(ts, s).1)
    else if CheckType(ts, s, Identifier) then
      Done(Leaf(IdentifierNamed(Peek(ts, s).lexeme)), Advance(ts, s).1)
    else if CheckType(ts, s, LeftParen) then
      var (node, s1) :- ValidateExpression(ts, Advance(ts, s).1);
      var (_, s2) :- Consume(ts, s1, RightParen);
      Done(node, s2)
    else if CheckType(ts, s, LeftBracket) then ArrayLiteral(ts, Advance(ts, s).1)
    else if CheckType(ts, s, Call) then CallTerm(ts, Advance(ts, s).1)
    else RaiseAt(ts, s, ExpectedTerm)
  }

  /** An array literal after its `[`: expressions up to `]`. */
  function ArrayLiteral(ts: seq<Token>, s: State): (r: Outcome<Tree>)
    requires Fits(ts, s)
    ensures Reads(ts, s, r) && (r.Done? ==> r.value == NoTree)
    decreases |ts| - s.current, 5
  {
    var elements :- if CheckType(ts, s, RightBracket) then Done(NoTree, s) else ExpressionList(ts, s);
    var (_, s2) :- Consume(ts, elements.1, RightBracket);
    Done(NoTree, s2)
  }

  /** A call in a term after its CALL: the function name, then an
      argument list when a `(` follows. */
  function CallTerm(ts: seq<Token>, s: State): (r: Outcome<Tree>)
    requires Fits(ts, s)
    ensures Reads(ts, s, r) && (r.Done? ==> r.value == NoTree)
    decreases |ts| - s.current, 5
  {
    var (_, s1) :- Consume(ts, s, Identifier);
    var (isOpen, s2) := MatchType(ts, s1, LeftParen);
    if !isOpen then Done(NoTree, s1)
    else
      var (_, s3) :- ExpressionList(ts, s2);
      var (_, s4) :- Consume(ts, s3, RightParen);
      Done(NoTree, s4)
  }

  /** An expression, then another after each comma (array elements and
      call arguments in a term); the expressions build no node. */
  function ExpressionList(ts: seq<Token>, s: State): (r: Outcome<Tree>)
    requires Fits(ts, s)
    ensures Reads(ts, s, r)
    decreases |ts| - s.current, 3
  {
    var (_, s1) :- ValidateExpression(ts, s);
    ExpressionListTail(ts, s1)
  }

  function ExpressionListTail(ts: seq<Token>, s: State): (r: Outcome<Tree>)
    requires Fits(ts, s)
    ensures ReadsSome(ts, s, r)
    decreases |ts| - s.current, 4
  {
    var (isComma, s1) := MatchType(ts, s, Comma);
    if !isComma then Done(NoTree, s)
    else
      var (_, s2) :- ValidateExpression(ts, s1);
      ExpressionListTail(ts, s2)
  }

  /** The loop of `_validate_expression` with the children so far. */
  function ExpressionTail(ts: seq<Token>, s: State, children: seq<Tree>): (r: Outcome<seq<Tree>>)
    requires Fits(ts, s)
    ensures ReadsSome(ts, s, r)
    decreases |ts| - s.current, 1
  {
    if !ArithmeticOperator(Peek(ts, s).tokenType) then Done(children, s)
    else
      var (operator, s1) := Advance(ts, s);
      var (term, s2) :- ValidateTerm(ts, s1);
      ExpressionTail(ts, s2, children + [Leaf(Operator(operator.lexeme)), term])
  }

  /** `_validate_expression`: terms separated by arithmetic operators,
      with no precedence, as one flat `Expression` node. */
  function ValidateExpression(ts: seq<Token>, s: State): (r: Outcome<Tree>)
    requires Fits(ts, s)
    ensures Reads(ts, s, r) && (r.Done? ==> r.value.Node? && r.value.kind == Expression)
    decreases |ts| - s.current, 2
  {
    var (term, s1) :- ValidateTerm(ts, s);
    var (children, s2) :- ExpressionTail(ts, s1, [term]);
    Done(Node(Expression, children), s2)
  }

  /** `_validate_condition`: expression, comparison operator, expression. */
  function ValidateCondition(ts: seq<Token>, s: State): (r: Outcome<Tree>)
    requires Fits(ts, s)
    ensures Reads(ts, s, r)
    decreases |ts| - s.current, 3
  {
    var (left, s1) :- ValidateExpression(ts, s);
    if Comparison(Peek(ts, s1).tokenType) then
      var (operator, s2) := Advance(ts, s1);
      var (right, s3) :- ValidateExpression(ts, s2);
      Done(Node(Condition, [left, Leaf(Operator(operator.lexeme)), right]), s3)
    else RaiseAt(ts, s1, ExpectedComparison(Peek(ts, s1).lexeme))
  }

  /** The effective `_validate_parameter_list`: nothing, or an identifier
      followed by `, identifier` any number of times; it yields `None`. */
  function ValidateParameterList(ts: seq<Token>, s: State): (r: Outcome<Tree>)
    requires Fits(ts, s)
    ensures ReadsSome(ts, s, r)
  {
    var (named, s1) := MatchType(ts, s, Identifier);
    if !named then Done(NoTree, s) else ParameterTail(ts, s1)
  }

  function ParameterTail(ts: seq<Token>, s: State): (r: Outcome<Tree>)
    requires Fits(ts, s)
    ensures ReadsSome(ts, s, r)
    decreases |ts| - s.current
  {
    var (isComma, s1) := MatchType(ts, s, Comma);
    if !isComma then Done(NoTree, s)
    else
      var (_, s2) :- Consume(ts, s1, Identifier);
      ParameterTail(ts, s2)
  }

  // ------------------------------------------------------------------
  // Statements
  // ------------------------------------------------------------------

  /** The token types `_validate_statement` dispatches on. */
  const StatementStarts: set<TokenType> := {Let, If, While, For, Do, Repeat, Func, Return, Identifier}

  /** `_validate_statement`: dispatch on the current token's type. */
  function ValidateStatement(ts: seq<Token>, s: State): (r: Outcome<Tree>)
    requires Fits(ts, s)
    ensures Closes(ts, s, r)
    ensures r.Done? ==> r.value.Node?
    decreases |ts| - s.current, 6
  {
    var t := Peek(ts, s).tokenType;
    if t == Let then ValidateLet(ts, s)
    else if t == If then ValidateIf(ts, s)
    else if t == While then ValidateWhile(ts, s)
    else if t == For then ValidateFor(ts, s)
    else if t == Do then ValidateDoWhile(ts, s)
    else if t == Repeat then ValidateRepeatUntil(ts, s)
    else if t == Func then ValidateFunctionDefinition(ts, s)
    else if t == Return then ValidateReturn(ts, s)
    else if t == Identifier then ValidateAssignment(ts, s)
    else RaiseAt(ts, s, UnexpectedToken(Peek(ts, s).lexeme))
  }

  /** `_validate_assignment`: identifier, `=`, `+=` or `*=`, expression. */
  function ValidateAssignment(ts: seq<Token>, s: State): (r: Outcome<Tree>)
    requires Fits(ts, s)
    ensures Reads(ts, s, r) && (r.Done? ==> r.value.Node?)
    decreases |ts| - s.current, 5
  {
    var (identifier, s1) :- Consume(ts, s, Identifier);
    var operator :-
      if CheckType(ts, s1, Equal) then Done("=", Advance(ts, s1).1)
      else if CheckType(ts, s1, PlusEqual) then Done("+=", Advance(ts, s1).1)
      else if CheckType(ts, s1, MultiplyEqual) then Done("*=", Advance(ts, s1).1)
      else RaiseAt(ts, s1, ExpectedAssignmentOperator);
    var (expression, s3) :- ValidateExpression(ts, operator.1);
    Done(Node(Assignment, [Leaf(IdentifierNamed(identifier.lexeme)), Leaf(AssignOperator(operator.0)), expression]), s3)
  }

  /** `_validate_let_statement`: LET identifier = expression. */
  function ValidateLet(ts: seq<Token>, s: State): (r: Outcome<Tree>)
    requires Fits(ts, s)
    ensures Reads(ts, s, r) && (r.Done? ==> r.value.Node?)
    decreases |ts| - s.current, 5
  {
    var (_, s1) :- Consume(ts, s, Let);
    var (identifier, s2) :- Consume(ts, s1, Identifier);
    var (_, s3) :- Consume(ts, s2, Equal);
    var (expression, s4) :- ValidateExpression(ts, s3);
    Done(Node(LetStatement, [Leaf(IdentifierNamed(identifier.lexeme)), expression]), s4)
  }

  /** The block loops: statements until the current token has type `stop`
      or, when given, type `mid`.  Since `_check` is false at the end of
      input, the end-of-file token is validated as a statement, which
      raises "Unexpected token". */
  function StatementLoop(ts: seq<Token>, s: State, acc: seq<Tree>, stop: TokenType, mid: Option<TokenType>): (r: Outcome<seq<Tree>>)
    requires Fits(ts, s)
    ensures ClosesSome(ts, s, r)
    ensures r.Done? ==> CheckType(ts, r.after, stop) || (mid.Some? && CheckType(ts, r.after, mid.value))
    decreases |ts| - s.current, 7
  {
    if CheckType(ts, s, stop) || (mid.Some? && CheckType(ts, s, mid.value)) then Done(acc, s)
    else
      var (statement, s1) :- ValidateStatement(ts, s);
      StatementLoop(ts, s1, acc + [statement], stop, mid)
  }

  /** The effective `_validate_block`: statements up to `end` or `mid`;
      after `mid` (which it consumes) statements up to `end`; then `end`. */
  function ValidateBlock(ts: seq<Token>, s: State, end: TokenType, mid: Option<TokenType>): (r: Outcome<Tree>)
    requires Fits(ts, s)
    ensures Closes(ts, s, r)
    decreases |ts| - s.current, 8
  {
    var (first, s1) :- StatementLoop(ts, s, [], end, mid);
    BlockTail(ts, s1, first, end, mid)
  }

  /** The rest of a block once its first loop has stopped: when it stopped
      on `mid`, that token is consumed and statements follow up to `end`;
      then `end` is consumed. */
  function BlockTail(ts: seq<Token>, s: State, first: seq<Tree>, end: TokenType, mid: Option<TokenType>): (r: Outcome<Tree>)
    requires Fits(ts, s)
    requires CheckType(ts, s, end) || (mid.Some? && CheckType(ts, s, mid.value))
    ensures Closes(ts, s, r)
    decreases |ts| - s.current, 7
  {
    var (children, s1) :-
      if mid.Some? && CheckType(ts, s, mid.value) then StatementLoop(ts, Advance(ts, s).1, first, end, None)
      else Done(first, s);
    // The loops stop only on `end` here, so `_consume(end)` cannot fail.
    Done(Node(Block, children), Advance(ts, s1).1)
  }

  /** `_validate_if_statement`.  The then-block also takes an ELSE part and
      consumes ENDIF; a further ELSE right after that ENDIF is then read
      as a second else block up to another ENDIF. */
  function ValidateIf(ts: seq<Token>, s: State): (r: Outcome<Tree>)
    requires Fits(ts, s)
    ensures Closes(ts, s, r) && (r.Done? ==> r.value.Node?)
    decreases |ts| - s.current, 5
  {
    var (_, s1) :- Consume(ts, s, If);
    var (condition, s2) :- ValidateCondition(ts, s1);
    var (_, s3) :- Consume(ts, s2, Then);
    var (branches, s4) :- IfBody(ts, s3);
    Done(Node(IfStatement, [condition] + branches), s4)
  }

  /** The IF scope: the then-block up to ENDIF or ELSE, then the else
      part, as a `ThenBlock` node followed by at most one `ElseBlock`. */
  function IfBody(ts: seq<Token>, s: State): (r: Outcome<seq<Tree>>)
    requires Fits(ts, s)
    ensures Closes(ts, s, r)
    decreases |ts| - s.current, 10
  {
    var (thenBlock, s1) :- ValidateBlock(ts, Push(s, IfScope), Endif, Some(Else));
    var (elsePart, s2) :- ElsePart(ts, s1);
    Done([Node(ThenBlock, [thenBlock])] + elsePart, Pop(s2))
  }

  /** What follows the then-block of an IF: nothing, or ELSE and a block
      up to ENDIF as an `ElseBlock` node. */
  function ElsePart(ts: seq<Token>, s: State): (r: Outcome<seq<Tree>>)
    requires Fits(ts, s)
    ensures ClosesSome(ts, s, r)
    ensures r.Done? ==> |r.value| <= 1
    decreases |ts| - s.current, 9
  {
    var (isElse, s1) := MatchType(ts, s, Else);
    if !isElse then Done([], s)
    else
      var (elseBlock, s2) :- ValidateBlock(ts, s1, Endif, None);
      Done([Node(ElseBlock, [elseBlock])], s2)
  }

  /** `_validate_while_statement`: WHILE condition DO block ENDWHILE. */
  function ValidateWhile(ts: seq<Token>, s: State): (r: Outcome<Tree>)
    requires Fits(ts, s)
    ensures Closes(ts, s, r) && (r.Done? ==> r.value.Node?)
    decreases |ts| - s.current, 5
  {
    var (_, s1) :- Consume(ts, s, While);
    var (condition, s2) :- ValidateCondition(ts, s1);
    var (_, s3) :- Consume(ts, s2, Do);
    var (block, s4) :- WhileBody(ts, s3);
    Done(Node(WhileStatement, [condition, block]), s4)
  }

  /** The WHILE scope: a block up to ENDWHILE. */
  function WhileBody(ts: seq<Token>, s: State): (r: Outcome<Tree>)
    requires Fits(ts, s)
    ensures Closes(ts, s, r)
    decreases |ts| - s.current, 9
  {
    var (block, s1) :- ValidateBlock(ts, Push(s, WhileScope), Endwhile, None);
    Done(block, Pop(s1))
  }

  /** `_validate_for_statement`: FOR, the loop header, then a block up to
      ENDFOR. */
  function ValidateFor(ts: seq<Token>, s: State): (r: Outcome<Tree>)
    requires Fits(ts, s)
    ensures Closes(ts, s, r) && (r.Done? ==> r.value.Node?)
    decreases |ts| - s.current, 5
  {
    var (_, s1) :- Consume(ts, s, For);
    var (header, s2) :- ForHeader(ts, s1);
    var (body, s3) :- ForBody(ts, s2);
    Done(Node(ForStatement, header + [body]), s3)
  }

  /** The FOR scope: a block up to ENDFOR. */
  function ForBody(ts: seq<Token>, s: State): (r: Outcome<Tree>)
    requires Fits(ts, s)
    ensures Closes(ts, s, r)
    decreases |ts| - s.current, 9
  {
    var (block, s1) :- ValidateBlock(ts, Push(s, ForScope), Endfor, None);
    Done(block, Pop(s1))
  }

  /** The header of a FOR statement, `id = expr TO expr [STEP expr] DO`:
      the identifier leaf, the bounds and the step when there is one. */
  function ForHeader(ts: seq<Token>, s: State): (r: Outcome<seq<Tree>>)
    requires Fits(ts, s)
    ensures Reads(ts, s, r)
    decreases |ts| - s.current, 5
  {
    var (identifier, s1) :- Consume(ts, s, Identifier);
    var (_, s2) :- Consume(ts, s1, Equal);
    ForBounds(ts, s2, Leaf(IdentifierNamed(identifier.lexeme)))
  }

  /** The rest of a FOR header after `id =`: `expr TO expr`, then the
      step part. */
  function ForBounds(ts: seq<Token>, s: State, variable: Tree): (r: Outcome<seq<Tree>>)
    requires Fits(ts, s)
    ensures Reads(ts, s, r)
    decreases |ts| - s.current, 5
  {
    var (first, s1) :- ValidateExpression(ts, s);
    var (_, s2) :- Consume(ts, s1, To);
    var (last, s3) :- ValidateExpression(ts, s2);
    ForStep(ts, s3, [variable, first, last])
  }

  /** The end of a FOR header: an optional `STEP expr`, then `DO`. */
  function ForStep(ts: seq<Token>, s: State, bounds: seq<Tree>): (r: Outcome<seq<Tree>>)
    requires Fits(ts, s)
    ensures Reads(ts, s, r)
    decreases |ts| - s.current, 5
  {
    var (hasStep, s1) := MatchType(ts, s, Step);
    var step :- if hasStep then ValidateExpression(ts, s1) else Done(NoTree, s1);
    var (_, s3) :- Consume(ts, step.1, Do);
    Done(bounds + (if hasStep then [step.0] else []), s3)
  }

  /** `_validate_do_while_statement`: DO statements WHILE condition. */
  function ValidateDoWhile(ts: seq<Token>, s: State): (r: Outcome<Tree>)
    requires Fits(ts, s)
    ensures Closes(ts, s, r) && (r.Done? ==> r.value.Node?)
    decreases |ts| - s.current, 5
  {
    var (_, s1) :- Consume(ts, s, Do);
    var (children, s2) :- DoBody(ts, s1);
    Done(Node(DoWhileStatement, children), s2)
  }

  /** The DO scope: statements up to WHILE, WHILE, then the condition. */
  function DoBody(ts: seq<Token>, s: State): (r: Outcome<seq<Tree>>)
    requires Fits(ts, s)
    ensures Closes(ts, s, r)
    decreases |ts| - s.current, 8
  {
    var (statements, s1) :- StatementLoop(ts, Push(s, DoScope), [], While, None);
    var (condition, s2) :- ClosingCondition(ts, s1, While);
    Done(statements + [condition], Pop(s2))
  }

  /** The DO scope read from its parts. */
  lemma DoBodyOfParts(ts: seq<Token>, s: State, statements: seq<Tree>, s1: State, condition: Tree, s2: State, s3: State)
    requires Fits(ts, s) && Fits(ts, s1)
    requires StatementLoop(ts, Push(s, DoScope), [], While, None) == Done(statements, s1)
    requires ClosingCondition(ts, s1, While) == Done(condition, s2)
    requires s3 == s2.(scopes := s2.scopes[..|s2.scopes| - 1])
    ensures DoBody(ts, s) == Done(statements + [condition], s3)
  {
  }

  /** The end of a DO or REPEAT loop: the token `stop` that ended its
      statements, then the condition.  The statements stop only on `stop`,
      so `_consume(stop)` cannot fail there. */
  function ClosingCondition(ts: seq<Token>, s: State, stop: TokenType): (r: Outcome<Tree>)
    requires Fits(ts, s) && CheckType(ts, s, stop)
    ensures Reads(ts, s, r)
    decreases |ts| - s.current, 4
  {
    ValidateCondition(ts, Advance(ts, s).1)
  }

  /** `_validate_repeat_until_statement`: REPEAT statements UNTIL
      condition. */
  function ValidateRepeatUntil(ts: seq<Token>, s: State): (r: Outcome<Tree>)
    requires Fits(ts, s)
    ensures Closes(ts, s, r) && (r.Done? ==> r.value.Node?)
    decreases |ts| - s.current, 5
  {
    var (_, s1) :- Consume(ts, s, Repeat);
    var (children, s2) :- RepeatBody(ts, s1);
    Done(Node(RepeatUntilStatement, children), s2)
  }

  /** The REPEAT scope: statements up to UNTIL, UNTIL, then the
      condition. */
  function RepeatBody(ts: seq<Token>, s: State): (r: Outcome<seq<Tree>>)
    requires Fits(ts, s)
    ensures Closes(ts, s, r)
    decreases |ts| - s.current, 8
  {
    var (statements, s1) :- StatementLoop(ts, Push(s, RepeatScope), [], Until, None);
    var (condition, s2) :- ClosingCondition(ts, s1, Until);
    Done([Node(Block, statements), condition], Pop(s2))
  }

  /** `_validate_function_definition`: FUNC id ( parameters ) BEGIN block
      END, where the block must have validated a RETURN; on success both
      flags are cleared. */
  function ValidateFunctionDefinition(ts: seq<Token>, s: State): (r: Outcome<Tree>)
    requires Fits(ts, s)
    ensures Closes(ts, s, r) && (r.Done? ==> r.value.Node?)
    ensures r.Done? ==> !r.after.inFunction && !r.after.hadReturn
    decreases |ts| - s.current, 5
  {
    var (_, s1) :- Consume(ts, s, Func);
    var (header, s2) :- FunctionHeader(ts, s1);
    var (body, s3) :- FunctionBody(ts, s2);
    Done(Node(FunctionDefinition, header + [body]), s3)
  }

  /** The FUNC scope: with the in-function flag set and the had-return
      flag cleared, a block up to END that must have validated a RETURN;
      after it both flags are cleared. */
  function FunctionBody(ts: seq<Token>, s: State): (r: Outcome<Tree>)
    requires Fits(ts, s)
    ensures Closes(ts, s, r)
    ensures r.Done? ==> !r.after.inFunction && !r.after.hadReturn
    decreases |ts| - s.current, 9
  {
    var (body, s1) :- ValidateBlock(ts, Push(s, FuncScope).(inFunction := true, hadReturn := false), End, None);
    if !s1.hadReturn then RaiseAt(ts, s1, MissingReturn)
    else Done(body, Pop(s1).(inFunction := false, hadReturn := false))
  }

  /** The header of a function definition, `id ( parameters ) BEGIN`: the
      identifier leaf and the parameter list's `None`. */
  function FunctionHeader(ts: seq<Token>, s: State): (r: Outcome<seq<Tree>>)
    requires Fits(ts, s)
    ensures Reads(ts, s, r)
  {
    var (identifier, s1) :- Consume(ts, s, Identifier);
    var (_, s2) :- Consume(ts, s1, LeftParen);
    var (parameters, s3) :- ValidateParameterList(ts, s2);
    var (_, s4) :- Consume(ts, s3, RightParen);
    var (_, s5) :- Consume(ts, s4, Begin);
    Done([Leaf(IdentifierNamed(identifier.lexeme)), parameters], s5)
  }

  /** `_validate_return_statement`: RETURN with an expression unless END
      follows; sets the had-return flag, inside a function or not. */
  function ValidateReturn(ts: seq<Token>, s: State): (r: Outcome<Tree>)
    requires Fits(ts, s)
    ensures Closes(ts, s, r) && (r.Done? ==> r.value.Node?)
    ensures r.Done? ==> r.after.hadReturn && r.after.inFunction == s.inFunction
    decreases |ts| - s.current, 5
  {
    var (_, s1) :- Consume(ts, s, Return);
    var value :- if !CheckType(ts, s1, End) then ValidateExpression(ts, s1) else Done(NoTree, s1);
    var children := if !CheckType(ts, s1, End) then [value.0] else [];
    Done(Node(ReturnStatement, children), value.1.(hadReturn := true))
  }

  // ------------------------------------------------------------------
  // The whole program
  // ------------------------------------------------------------------

  /** The loop of `validate` with the program node built so far. */
  function ValidateLoop(ts: seq<Token>, s: State, program: seq<Tree>): (r: Outcome<seq<Tree>>)
    requires Fits(ts, s)
    ensures ClosesSome(ts, s, r)
    ensures r.Done? ==> AtEnd(ts, r.after)
    decreases |ts| - s.current
  {
    if AtEnd(ts, s) then Done(program, s)
    else
      var (statement, s1) :- ValidateStatement(ts, s);
      ValidateLoop(ts, s1, program + [statement])
  }

  /** `validate`: every statement up to the end-of-file token, appended to
      the program node; then an error if a scope is still open. */
  function Validate(ts: seq<Token>, s: State, program: seq<Tree>): (r: Outcome<seq<Tree>>)
    requires Fits(ts, s)
    ensures r.Done? ==> Fits(ts, r.after) && AtEnd(ts, r.after) && r.after.scopes == []
  {
    var (statements, s1) :- ValidateLoop(ts, s, program);
    if s1.scopes != [] then
      RaiseAt(ts, s1, Unclosed(s1.scopes[|s1.scopes| - 1]))
    else Done(statements, s1)
  }
}
