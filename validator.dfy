/** The syntax validator (class `SyntaxValidator` of syntax_validation.py):
    a cursor over a token list that ends with an end-of-file token, a
    stack of the blocks being validated, the in-function and had-return
    flags, and the `Program` node that `validate` grows.

    Every validating method is proved to compute the corresponding
    function of module Validation from the state it starts in: its result
    together with the state it leaves behind is that function's outcome,
    so the properties proved in modules Validation and ValidationFacts
    hold of the class.  A raised `SyntaxError` is an `Err` result. */
module Validating {
  import opened Options
  import V = Validation

  /** A method's result and the state it leaves, as a Validation outcome. */
  function Reached<T>(r: Result<T, V.SyntaxError>, s: V.State): V.Outcome<T> {
    match r
    case Ok(v) => V.Done(v, s)
    case Err(e) => V.Raised(e)
  }

  class SyntaxValidator {
    const tokens: V.Tokens
    var current: nat
    var scopeStack: seq<V.Scope>
    var inFunction: bool
    var hadReturn: bool
    var parseTree: V.ProgramTree

    /** The fields the validating functions read and update. */
    function State(): V.State
      reads this
    {
      V.State(current, scopeStack, inFunction, hadReturn)
    }

    /** The cursor is on a token of the list, which by its type ends with
        the end-of-file token. */
    predicate Valid()
      reads this
      ensures Valid() ==> V.Fits(tokens, State())
    {
      current < |tokens|
    }

    constructor (tokenList: seq<V.Token>)
      requires V.Terminated(tokenList)
      ensures Valid() && tokens == tokenList
      ensures State() == V.State(0, [], false, false) && parseTree == V.Node(V.Program, [])
    {
      tokens := tokenList;
      current := 0;
      scopeStack := [];
      inFunction := false;
      hadReturn := false;
      parseTree := V.Node(V.Program, []);
    }

    // ----------------------------------------------------------------
    // Cursor helpers
    // ----------------------------------------------------------------

    function Peek(): (t: V.Token)
      requires Valid()
      reads this
      ensures t == V.Peek(tokens, State())
    {
      tokens[current]
    }

    /** At the end exactly on the end-of-file token. */
    function IsAtEnd(): (b: bool)
      requires Valid()
      reads this
      ensures b == V.AtEnd(tokens, State())
    {
      Peek().tokenType == V.Eof
    }

    function Check(t: V.TokenType): (b: bool)
      requires Valid()
      reads this
      ensures b == V.CheckType(tokens, State(), t)
      ensures b ==> t != V.Eof
    {
      !IsAtEnd() && Peek().tokenType == t
    }

    /** The token just consumed, if any. */
    function Previous(): (t: Option<V.Token>)
      requires Valid()
      reads this
      ensures t.Some? <==> current > 0
      ensures t.Some? ==> t.value == tokens[current - 1]
    {
      if current > 0 then Some(tokens[current - 1]) else None
    }

    function IsArithmeticOperator(): (b: bool)
      requires Valid()
      reads this
      ensures b <==> V.ArithmeticOperator(V.Peek(tokens, State()).tokenType)
    {
      Peek().tokenType in {V.Plus, V.Minus, V.Multiply, V.Divide}
    }

    /** Moves past the current token unless it is the end-of-file token,
        and returns the token before the cursor (the last token when the
        cursor is still at the first). */
    method Advance() returns (t: V.Token)
      requires Valid()
      modifies this`current
      ensures Valid()
      ensures old(IsAtEnd()) ==> current == old(current)
      ensures !old(IsAtEnd()) ==> (t, State()) == V.Advance(tokens, old(State()))
    {
      if !IsAtEnd() {
        current := current + 1;
      }
      t := if current > 0 then tokens[current - 1] else tokens[|tokens| - 1];
    }

    method Match(t: V.TokenType) returns (b: bool)
      requires Valid()
      modifies this`current
      ensures Valid()
      ensures (b, State()) == V.MatchType(tokens, old(State()), t)
    {
      if Check(t) {
        var _ := Advance();
        return true;
      }
      return false;
    }

    method Consume(t: V.TokenType) returns (r: Result<V.Token, V.SyntaxError>)
      requires Valid()
      modifies this`current
      ensures Valid()
      ensures Reached(r, State()) == V.Consume(tokens, old(State()), t)
      ensures r.Err? ==> current == old(current)
    {
      if Check(t) {
        var token := Advance();
        return Ok(token);
      }
      return Err(Raise(V.Missing(t)));
    }

    /** The `SyntaxError` for message `m` at the current token. */
    function Raise(m: V.Message): (e: V.SyntaxError)
      requires Valid()
      reads this
      ensures V.Raised(e) == V.RaiseAt<V.Tree>(tokens, State(), m)
      ensures e.at == current
    {
      V.SyntaxError(m, Peek().line, Peek().position, current)
    }

    // ----------------------------------------------------------------
    // The whole program
    // ----------------------------------------------------------------

    /** `validate`: every statement up to the end-of-file token is added
        to the `Program` node; a scope still open afterwards is reported. */
    method Validate() returns (r: Result<bool, V.SyntaxError>)
      requires Valid()
      modifies this`current, this`scopeStack, this`inFunction, this`hadReturn, this`parseTree
      ensures var spec := V.Validate(tokens, old(State()), old(parseTree.children));
        && (r.Ok? <==> spec.Done?)
        && (r.Ok? ==> r.value && Valid() && State() == spec.after && parseTree == V.Node(V.Program, spec.value))
        && (r.Err? ==> spec == V.Raised(r.error))
    {
      var start := State();
      var program := parseTree.children;
      while !IsAtEnd()
        invariant Valid()
        invariant V.ValidateLoop(tokens, start, program) == V.ValidateLoop(tokens, State(), parseTree.children)
        decreases |tokens| - current
      {
        var statement := ValidateStatement();
        if statement.Err? {
          return Err(statement.error);
        }
        parseTree := parseTree.(children := parseTree.children + [statement.value]);
      }
      if scopeStack != [] {
        var unclosed := scopeStack[|scopeStack| - 1];
        scopeStack := scopeStack[..|scopeStack| - 1];
        return Err(Raise(V.Unclosed(unclosed)));
      }
      return Ok(true);
    }

    // ----------------------------------------------------------------
    // Statements
    // ----------------------------------------------------------------

    method ValidateStatement() returns (r: Result<V.Tree, V.SyntaxError>)
      requires Valid()
      modifies this`current, this`scopeStack, this`inFunction, this`hadReturn
      ensures Reached(r, State()) == V.ValidateStatement(tokens, old(State()))
      decreases |tokens| - current, 6
    {
      var token := Peek();
      var t := token.tokenType;
      if t == V.Let {
        r := ValidateLet();
      } else if t == V.If {
        r := ValidateIf();
      } else if t == V.While {
        r := ValidateWhile();
      } else if t == V.For {
        r := ValidateFor();
      } else if t == V.Do {
        r := ValidateDoWhile();
      } else if t == V.Repeat {
        r := ValidateRepeatUntil();
      } else if t == V.Func {
        r := ValidateFunctionDefinition();
      } else if t == V.Return {
        r := ValidateReturn();
      } else if t == V.Identifier {
        r := ValidateAssignment();
      } else {
        r := Err(Raise(V.UnexpectedToken(token.lexeme)));
      }
    }

    method ValidateAssignment() returns (r: Result<V.Tree, V.SyntaxError>)
      requires Valid()
      modifies this`current
      ensures Reached(r, State()) == V.ValidateAssignment(tokens, old(State()))
      decreases |tokens| - current, 5
    {
      var identifier := Consume(V.Identifier);
      if identifier.Err? {
        return Err(identifier.error);
      }
      var operator: string;
      var isEqual := Match(V.Equal);
      if isEqual {
        operator := "=";
      } else {
        var isPlus := Match(V.PlusEqual);
        if isPlus {
          operator := "+=";
        } else {
          var isTimes := Match(V.MultiplyEqual);
          if isTimes {
            operator := "*=";
          } else {
            return Err(Raise(V.ExpectedAssignmentOperator));
          }
        }
      }
      var expression := ValidateExpression();
      if expression.Err? {
        return expression;
      }
      return Ok(V.Node(V.Assignment, [V.Leaf(V.IdentifierNamed(identifier.value.lexeme)),
                                      V.Leaf(V.AssignOperator(operator)), expression.value]));
    }

    method ValidateLet() returns (r: Result<V.Tree, V.SyntaxError>)
      requires Valid()
      modifies this`current
      ensures Reached(r, State()) == V.ValidateLet(tokens, old(State()))
      decreases |tokens| - current, 5
    {
      var let := Consume(V.Let);
      if let.Err? {
        return Err(let.error);
      }
      var identifier := Consume(V.Identifier);
      if identifier.Err? {
        return Err(identifier.error);
      }
      var equal := Consume(V.Equal);
      if equal.Err? {
        return Err(equal.error);
      }
      var expression := ValidateExpression();
      if expression.Err? {
        return expression;
      }
      return Ok(V.Node(V.LetStatement, [V.Leaf(V.IdentifierNamed(identifier.value.lexeme)), expression.value]));
    }

    method ValidateIf() returns (r: Result<V.Tree, V.SyntaxError>)
      requires Valid()
      modifies this`current, this`scopeStack, this`inFunction, this`hadReturn
      ensures Reached(r, State()) == V.ValidateIf(tokens, old(State()))
      decreases |tokens| - current, 5
    {
      var keyword := Consume(V.If);
      if keyword.Err? {
        return Err(keyword.error);
      }
      var condition := ValidateCondition();
      if condition.Err? {
        return condition;
      }
      var thenToken := Consume(V.Then);
      if thenToken.Err? {
        return Err(thenToken.error);
      }
      var branches := IfBody();
      if branches.Err? {
        return Err(branches.error);
      }
      return Ok(V.Node(V.IfStatement, [condition.value] + branches.value));
    }

    /** The IF scope of `_validate_if_statement`: the then-block, then the
        ELSE part. */
    method IfBody() returns (r: Result<seq<V.Tree>, V.SyntaxError>)
      requires Valid()
      modifies this`current, this`scopeStack, this`inFunction, this`hadReturn
      ensures Reached(r, State()) == V.IfBody(tokens, old(State()))
      decreases |tokens| - current, 10
    {
      scopeStack := scopeStack + [V.IfScope];
      var thenBlock := ValidateBlock(V.Endif, Some(V.Else));
      if thenBlock.Err? {
        return Err(thenBlock.error);
      }
      var elsePart := ElsePart();
      if elsePart.Err? {
        return Err(elsePart.error);
      }
      scopeStack := scopeStack[..|scopeStack| - 1];
      return Ok([V.Node(V.ThenBlock, [thenBlock.value])] + elsePart.value);
    }

    /** The ELSE that `_validate_if_statement` looks for after the
        then-block, with its block. */
    method ElsePart() returns (r: Result<seq<V.Tree>, V.SyntaxError>)
      requires Valid()
      modifies this`current, this`scopeStack, this`inFunction, this`hadReturn
      ensures Reached(r, State()) == V.ElsePart(tokens, old(State()))
      decreases |tokens| - current, 9
    {
      var isElse := Match(V.Else);
      if !isElse {
        return Ok([]);
      }
      var elseBlock := ValidateBlock(V.Endif, None);
      if elseBlock.Err? {
        return Err(elseBlock.error);
      }
      return Ok([V.Node(V.ElseBlock, [elseBlock.value])]);
    }

    method ValidateWhile() returns (r: Result<V.Tree, V.SyntaxError>)
      requires Valid()
      modifies this`current, this`scopeStack, this`inFunction, this`hadReturn
      ensures Reached(r, State()) == V.ValidateWhile(tokens, old(State()))
      decreases |tokens| - current, 5
    {
      var keyword := Consume(V.While);
      if keyword.Err? {
        return Err(keyword.error);
      }
      var condition := ValidateCondition();
      if condition.Err? {
        return condition;
      }
      var doToken := Consume(V.Do);
      if doToken.Err? {
        return Err(doToken.error);
      }
      var block := WhileBody();
      if block.Err? {
        return block;
      }
      return Ok(V.Node(V.WhileStatement, [condition.value, block.value]));
    }

    /** The WHILE scope of `_validate_while_statement`. */
    method WhileBody() returns (r: Result<V.Tree, V.SyntaxError>)
      requires Valid()
      modifies this`current, this`scopeStack, this`inFunction, this`hadReturn
      ensures Reached(r, State()) == V.WhileBody(tokens, old(State()))
      decreases |tokens| - current, 9
    {
      scopeStack := scopeStack + [V.WhileScope];
      var block := ValidateBlock(V.Endwhile, None);
      if block.Err? {
        return block;
      }
      scopeStack := scopeStack[..|scopeStack| - 1];
      return block;
    }

    method ValidateFor() returns (r: Result<V.Tree, V.SyntaxError>)
      requires Valid()
      modifies this`current, this`scopeStack, this`inFunction, this`hadReturn
      ensures Reached(r, State()) == V.ValidateFor(tokens, old(State()))
      decreases |tokens| - current, 5
    {
      var keyword := Consume(V.For);
      if keyword.Err? {
        return Err(keyword.error);
      }
      var header := ForHeader();
      if header.Err? {
        return Err(header.error);
      }
      var body := ForBody();
      if body.Err? {
        return body;
      }
      return Ok(V.Node(V.ForStatement, header.value + [body.value]));
    }

    /** The FOR scope of `_validate_for_statement`. */
    method ForBody() returns (r: Result<V.Tree, V.SyntaxError>)
      requires Valid()
      modifies this`current, this`scopeStack, this`inFunction, this`hadReturn
      ensures Reached(r, State()) == V.ForBody(tokens, old(State()))
      decreases |tokens| - current, 9
    {
      scopeStack := scopeStack + [V.ForScope];
      var block := ValidateBlock(V.Endfor, None);
      if block.Err? {
        return block;
      }
      scopeStack := scopeStack[..|scopeStack| - 1];
      return block;
    }

    /** The FOR header up to and including DO: the loop variable's leaf,
        the bounds and the step when there is one. */
    method ForHeader() returns (r: Result<seq<V.Tree>, V.SyntaxError>)
      requires Valid()
      modifies this`current
      ensures Reached(r, State()) == V.ForHeader(tokens, old(State()))
      decreases |tokens| - current, 5
    {
      var identifier := Consume(V.Identifier);
      if identifier.Err? {
        return Err(identifier.error);
      }
      var equal := Consume(V.Equal);
      if equal.Err? {
        return Err(equal.error);
      }
      r := ForBounds(V.Leaf(V.IdentifierNamed(identifier.value.lexeme)));
    }

    method ForBounds(variable: V.Tree) returns (r: Result<seq<V.Tree>, V.SyntaxError>)
      requires Valid()
      modifies this`current
      ensures Reached(r, State()) == V.ForBounds(tokens, old(State()), variable)
      decreases |tokens| - current, 5
    {
      var first := ValidateExpression();
      if first.Err? {
        return Err(first.error);
      }
      var to := Consume(V.To);
      if to.Err? {
        return Err(to.error);
      }
      var last := ValidateExpression();
      if last.Err? {
        return Err(last.error);
      }
      r := ForStep([variable, first.value, last.value]);
    }

    method ForStep(bounds: seq<V.Tree>) returns (r: Result<seq<V.Tree>, V.SyntaxError>)
      requires Valid()
      modifies this`current
      ensures Reached(r, State()) == V.ForStep(tokens, old(State()), bounds)
      decreases |tokens| - current, 5
    {
      var step: seq<V.Tree> := [];
      var hasStep := Match(V.Step);
      if hasStep {
        var expression := ValidateExpression();
        if expression.Err? {
          return Err(expression.error);
        }
        step := [expression.value];
      }
      var doToken := Consume(V.Do);
      if doToken.Err? {
        return Err(doToken.error);
      }
      return Ok(bounds + step);
    }

    method ValidateDoWhile() returns (r: Result<V.Tree, V.SyntaxError>)
      requires Valid()
      modifies this`current, this`scopeStack, this`inFunction, this`hadReturn
      ensures Reached(r, State()) == V.ValidateDoWhile(tokens, old(State()))
      decreases |tokens| - current, 5
    {
      var keyword := Consume(V.Do);
      if keyword.Err? {
        return Err(keyword.error);
      }
      var children := DoBody();
      if children.Err? {
        return Err(children.error);
      }
      return Ok(V.Node(V.DoWhileStatement, children.value));
    }

    /** The DO scope of `_validate_do_while_statement`. */
    method DoBody() returns (r: Result<seq<V.Tree>, V.SyntaxError>)
      requires Valid()
      modifies this`current, this`scopeStack, this`inFunction, this`hadReturn
      ensures Reached(r, State()) == V.DoBody(tokens, old(State()))
      decreases |tokens| - current, 8
    {
      ghost var start := State();
      scopeStack := scopeStack + [V.DoScope];
      var statements := StatementLoop([], V.While, None);
      if statements.Err? {
        return Err(statements.error);
      }
      ghost var afterStatements := State();
      var condition := ClosingCondition(V.While);
      if condition.Err? {
        return Err(condition.error);
      }
      ghost var afterCondition := State();
      scopeStack := scopeStack[..|scopeStack| - 1];
      V.DoBodyOfParts(tokens, start, statements.value, afterStatements, condition.value, afterCondition, State());
      return Ok(statements.value + [condition.value]);
    }

    /** The token `stop` that ended a loop's statements, then the
        condition. */
    method ClosingCondition(stop: V.TokenType) returns (r: Result<V.Tree, V.SyntaxError>)
      requires Valid() && Check(stop)
      modifies this`current
      ensures Reached(r, State()) == V.ClosingCondition(tokens, old(State()), stop)
      decreases |tokens| - current, 4
    {
      var _ := Consume(stop);
      r := ValidateCondition();
    }

    method ValidateRepeatUntil() returns (r: Result<V.Tree, V.SyntaxError>)
      requires Valid()
      modifies this`current, this`scopeStack, this`inFunction, this`hadReturn
      ensures Reached(r, State()) == V.ValidateRepeatUntil(tokens, old(State()))
      decreases |tokens| - current, 5
    {
      var keyword := Consume(V.Repeat);
      if keyword.Err? {
        return Err(keyword.error);
      }
      var children := RepeatBody();
      if children.Err? {
        return Err(children.error);
      }
      return Ok(V.Node(V.RepeatUntilStatement, children.value));
    }

    /** The REPEAT scope of `_validate_repeat_until_statement`. */
    method RepeatBody() returns (r: Result<seq<V.Tree>, V.SyntaxError>)
      requires Valid()
      modifies this`current, this`scopeStack, this`inFunction, this`hadReturn
      ensures Reached(r, State()) == V.RepeatBody(tokens, old(State()))
      decreases |tokens| - current, 8
    {
      scopeStack := scopeStack + [V.RepeatScope];
      var statements := StatementLoop([], V.Until, None);
      if statements.Err? {
        return Err(statements.error);
      }
      var condition := ClosingCondition(V.Until);
      if condition.Err? {
        return Err(condition.error);
      }
      scopeStack := scopeStack[..|scopeStack| - 1];
      return Ok([V.Node(V.Block, statements.value), condition.value]);
    }

    method ValidateFunctionDefinition() returns (r: Result<V.Tree, V.SyntaxError>)
      requires Valid()
      modifies this`current, this`scopeStack, this`inFunction, this`hadReturn
      ensures Reached(r, State()) == V.ValidateFunctionDefinition(tokens, old(State()))
      decreases |tokens| - current, 5
    {
      var keyword := Consume(V.Func);
      if keyword.Err? {
        return Err(keyword.error);
      }
      var header := FunctionHeader();
      if header.Err? {
        return Err(header.error);
      }
      var body := FunctionBody();
      if body.Err? {
        return body;
      }
      return Ok(V.Node(V.FunctionDefinition, header.value + [body.value]));
    }

    /** The FUNC scope of `_validate_function_definition`: the block up to
        END with the in-function flag set and the had-return flag cleared,
        the missing-RETURN check, then both flags cleared. */
    method FunctionBody() returns (r: Result<V.Tree, V.SyntaxError>)
      requires Valid()
      modifies this`current, this`scopeStack, this`inFunction, this`hadReturn
      ensures Reached(r, State()) == V.FunctionBody(tokens, old(State()))
      decreases |tokens| - current, 9
    {
      scopeStack := scopeStack + [V.FuncScope];
      inFunction := true;
      hadReturn := false;
      var body := ValidateBlock(V.End, None);
      if body.Err? {
        return body;
      }
      if !hadReturn {
        return Err(Raise(V.MissingReturn));
      }
      scopeStack := scopeStack[..|scopeStack| - 1];
      inFunction := false;
      hadReturn := false;
      return body;
    }

    /** The function header after FUNC, up to and including BEGIN: the
        name's leaf and the parameter list's `None`. */
    method FunctionHeader() returns (r: Result<seq<V.Tree>, V.SyntaxError>)
      requires Valid()
      modifies this`current
      ensures Reached(r, State()) == V.FunctionHeader(tokens, old(State()))
    {
      var identifier := Consume(V.Identifier);
      if identifier.Err? {
        return Err(identifier.error);
      }
      var open := Consume(V.LeftParen);
      if open.Err? {
        return Err(open.error);
      }
      var parameters := ValidateParameterList();
      if parameters.Err? {
        return Err(parameters.error);
      }
      var close := Consume(V.RightParen);
      if close.Err? {
        return Err(close.error);
      }
      var begin := Consume(V.Begin);
      if begin.Err? {
        return Err(begin.error);
      }
      return Ok([V.Leaf(V.IdentifierNamed(identifier.value.lexeme)), parameters.value]);
    }

    method ValidateReturn() returns (r: Result<V.Tree, V.SyntaxError>)
      requires Valid()
      modifies this`current, this`hadReturn
      ensures Reached(r, State()) == V.ValidateReturn(tokens, old(State()))
      decreases |tokens| - current, 5
    {
      var keyword := Consume(V.Return);
      if keyword.Err? {
        return Err(keyword.error);
      }
      var children: seq<V.Tree> := [];
      if !Check(V.End) {
        var expression := ValidateExpression();
        if expression.Err? {
          return expression;
        }
        children := [expression.value];
      }
      hadReturn := true;
      return Ok(V.Node(V.ReturnStatement, children));
    }

    // ----------------------------------------------------------------
    // Blocks
    // ----------------------------------------------------------------

    /** `_validate_block`: statements up to `end` or `mid`, then after a
        `mid` statements up to `end`, then `end`. */
    method ValidateBlock(end: V.TokenType, mid: Option<V.TokenType>) returns (r: Result<V.Tree, V.SyntaxError>)
      requires Valid()
      modifies this`current, this`scopeStack, this`inFunction, this`hadReturn
      ensures Reached(r, State()) == V.ValidateBlock(tokens, old(State()), end, mid)
      decreases |tokens| - current, 8
    {
      var first := StatementLoop([], end, mid);
      if first.Err? {
        return Err(first.error);
      }
      r := BlockTail(first.value, end, mid);
    }

    /** The rest of `_validate_block` once its first loop has stopped: when
        it stopped on `mid`, match it and validate statements up to `end`;
        then consume `end`. */
    method BlockTail(first: seq<V.Tree>, end: V.TokenType, mid: Option<V.TokenType>)
      returns (r: Result<V.Tree, V.SyntaxError>)
      requires Valid()
      requires Check(end) || (mid.Some? && Check(mid.value))
      modifies this`current, this`scopeStack, this`inFunction, this`hadReturn
      ensures Reached(r, State()) == V.BlockTail(tokens, old(State()), first, end, mid)
      decreases |tokens| - current, 7
    {
      var children := first;
      if mid.Some? {
        var isMid := Match(mid.value);
        if isMid {
          var rest := StatementLoop(children, end, None);
          if rest.Err? {
            return Err(rest.error);
          }
          children := rest.value;
        }
      }
      var _ := Advance();
      return Ok(V.Node(V.Block, children));
    }

    /** A block loop: statements, appended to `acc`, until the current
        token has type `stop` or, when given, type `mid`. */
    method StatementLoop(acc: seq<V.Tree>, stop: V.TokenType, mid: Option<V.TokenType>)
      returns (r: Result<seq<V.Tree>, V.SyntaxError>)
      requires Valid()
      modifies this`current, this`scopeStack, this`inFunction, this`hadReturn
      ensures Reached(r, State()) == V.StatementLoop(tokens, old(State()), acc, stop, mid)
      decreases |tokens| - current, 7
    {
      var start := State();
      var children := acc;
      while !Check(stop) && (mid.None? || !Check(mid.value))
        invariant Valid() && start.current <= current
        invariant V.StatementLoop(tokens, start, acc, stop, mid) == V.StatementLoop(tokens, State(), children, stop, mid)
        decreases |tokens| - current
      {
        var statement := ValidateStatement();
        if statement.Err? {
          return Err(statement.error);
        }
        children := children + [statement.value];
      }
      return Ok(children);
    }

    // ----------------------------------------------------------------
    // Conditions, expressions and terms
    // ----------------------------------------------------------------

    method ValidateCondition() returns (r: Result<V.Tree, V.SyntaxError>)
      requires Valid()
      modifies this`current
      ensures Reached(r, State()) == V.ValidateCondition(tokens, old(State()))
      decreases |tokens| - current, 3
    {
      ghost var start := State();
      var left := ValidateExpression();
      if left.Err? {
        return left;
      }
      ghost var afterLeft := State();
      assert V.ValidateExpression(tokens, start) == V.Done(left.value, afterLeft);
      if V.Comparison(Peek().tokenType) {
        var operator := Advance();
        ghost var afterOperator := State();
        assert V.Advance(tokens, afterLeft) == (operator, afterOperator);
        var right := ValidateExpression();
        if right.Err? {
          return right;
        }
        assert V.ValidateExpression(tokens, afterOperator) == V.Done(right.value, State());
        return Ok(V.Node(V.Condition, [left.value, V.Leaf(V.Operator(operator.lexeme)), right.value]));
      }
      return Err(Raise(V.ExpectedComparison(Peek().lexeme)));
    }

    method ValidateExpression() returns (r: Result<V.Tree, V.SyntaxError>)
      requires Valid()
      modifies this`current
      ensures Reached(r, State()) == V.ValidateExpression(tokens, old(State()))
      decreases |tokens| - current, 2
    {
      var start := State();
      var term := ValidateTerm();
      if term.Err? {
        return term;
      }
      var afterTerm := State();
      var children := [term.value];
      while IsArithmeticOperator()
        invariant Valid() && start.current < current
        invariant V.ExpressionTail(tokens, afterTerm, [term.value]) == V.ExpressionTail(tokens, State(), children)
        decreases |tokens| - current
      {
        var operator := Advance();
        var next := ValidateTerm();
        if next.Err? {
          return next;
        }
        children := children + [V.Leaf(V.Operator(operator.lexeme)), next.value];
      }
      return Ok(V.Node(V.Expression, children));
    }

    method ValidateTerm() returns (r: Result<V.Tree, V.SyntaxError>)
      requires Valid()
      modifies this`current
      ensures Reached(r, State()) == V.ValidateTerm(tokens, old(State()))
      decreases |tokens| - current, 0
    {
      var isLiteral := Match(V.Number);
      if !isLiteral {
        isLiteral := Match(V.String);
      }
      if isLiteral {
        return Ok(V.Leaf(V.Literal(Previous().value.lexeme)));
      }
      var isIdentifier := Match(V.Identifier);
      if isIdentifier {
        return Ok(V.Leaf(V.IdentifierNamed(Previous().value.lexeme)));
      }
      var isOpen := Match(V.LeftParen);
      if isOpen {
        var node := ValidateExpression();
        if node.Err? {
          return node;
        }
        var close := Consume(V.RightParen);
        if close.Err? {
          return Err(close.error);
        }
        return node;
      }
      var isArray := Match(V.LeftBracket);
      if isArray {
        r := ArrayLiteral();
        return;
      }
      var isCall := Match(V.Call);
      if isCall {
        r := CallTerm();
        return;
      }
      return Err(Raise(V.ExpectedTerm));
    }

    /** An array literal after its `[`. */
    method ArrayLiteral() returns (r: Result<V.Tree, V.SyntaxError>)
      requires Valid()
      modifies this`current
      ensures Reached(r, State()) == V.ArrayLiteral(tokens, old(State()))
      decreases |tokens| - current, 5
    {
      if !Check(V.RightBracket) {
        var elements := ExpressionList();
        if elements.Err? {
          return elements;
        }
      }
      var close := Consume(V.RightBracket);
      if close.Err? {
        return Err(close.error);
      }
      return Ok(V.NoTree);
    }

    /** A call in a term after its CALL. */
    method CallTerm() returns (r: Result<V.Tree, V.SyntaxError>)
      requires Valid()
      modifies this`current
      ensures Reached(r, State()) == V.CallTerm(tokens, old(State()))
      decreases |tokens| - current, 5
    {
      var name := Consume(V.Identifier);
      if name.Err? {
        return Err(name.error);
      }
      var isOpen := Match(V.LeftParen);
      if isOpen {
        var arguments := ExpressionList();
        if arguments.Err? {
          return arguments;
        }
        var close := Consume(V.RightParen);
        if close.Err? {
          return Err(close.error);
        }
      }
      return Ok(V.NoTree);
    }

    /** An expression, then another after each comma. */
    method ExpressionList() returns (r: Result<V.Tree, V.SyntaxError>)
      requires Valid()
      modifies this`current
      ensures Reached(r, State()) == V.ExpressionList(tokens, old(State()))
      decreases |tokens| - current, 3
    {
      var start := State();
      var first := ValidateExpression();
      if first.Err? {
        return first;
      }
      var afterFirst := State();
      while true
        invariant Valid() && start.current < current
        invariant V.ExpressionListTail(tokens, afterFirst) == V.ExpressionListTail(tokens, State())
        decreases |tokens| - current
      {
        var isComma := Match(V.Comma);
        if !isComma {
          break;
        }
        var next := ValidateExpression();
        if next.Err? {
          return next;
        }
      }
      return Ok(V.NoTree);
    }

    /** The effective `_validate_parameter_list`: nothing, or identifiers
        separated by commas; it yields `None`. */
    method ValidateParameterList() returns (r: Result<V.Tree, V.SyntaxError>)
      requires Valid()
      modifies this`current
      ensures Reached(r, State()) == V.ValidateParameterList(tokens, old(State()))
    {
      var named := Match(V.Identifier);
      if !named {
        return Ok(V.NoTree);
      }
      var afterFirst := State();
      while true
        invariant Valid()
        invariant V.ParameterTail(tokens, afterFirst) == V.ParameterTail(tokens, State())
        decreases |tokens| - current
      {
        var isComma := Match(V.Comma);
        if !isComma {
          break;
        }
        var name := Consume(V.Identifier);
        if name.Err? {
          return Err(name.error);
        }
      }
      return Ok(V.NoTree);
    }
  }
}
