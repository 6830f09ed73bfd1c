/** The phase-2 parser (class `Parser` of Compiler_Project_phase2.py): a
    cursor `current` over the phase-1 token list, advanced by the
    recursive-descent methods and moved back by one when an operator of
    the wrong precedence level is put back.

    Every parsing method is proved to compute the corresponding function
    of module Grammar from the cursor it starts at: its result together
    with the cursor it leaves behind is that function's outcome, so the
    properties proved in modules Grammar, Precedence and Statements hold
    of the class.  A raised "Parse error" is an `Err` result; a statement
    loop that would call `parse_statement` forever returns
    `Err(Diverges(at))` instead of running on. */
module Parsing {
  import opened Options
  import S = Scanning
  import opened AstNodes
  import G = Grammar

  /** A method's result and the cursor it leaves, as a Grammar outcome. */
  function Reached<T>(r: Result<T, G.Failure>, cursor: nat): G.Parsed<T> {
    match r
    case Ok(v) => G.Parsed(v, cursor)
    case Err(f) => G.Failed(f)
  }

  class Parser {
    const tokens: seq<S.Token>
    var current: nat

    /** The cursor never passes the end of the token list. */
    predicate Valid()
      reads this
    {
      current <= |tokens|
    }

    constructor (tokenList: seq<S.Token>)
      ensures Valid() && tokens == tokenList && current == 0
    {
      tokens := tokenList;
      current := 0;
    }

    // ----------------------------------------------------------------
    // Cursor helpers
    // ----------------------------------------------------------------

    /** At the end exactly when every token has been consumed. */
    function IsAtEnd(): (b: bool)
      requires Valid()
      reads this
      ensures b <==> current == |tokens|
    {
      current >= |tokens|
    }

    /** The current token has kind `k`; false at the end of input. */
    function Check(k: S.Kind): (b: bool)
      requires Valid()
      reads this
      ensures b ==> current < |tokens| && tokens[current].kind == k
      ensures current == |tokens| ==> !b
      ensures b == G.Check(tokens, current, k)
    {
      if IsAtEnd() then false else tokens[current].kind == k
    }

    /** The token just before the cursor; at the first token Python's
        index -1 gives the last one.  Only an empty list raises. */
    function Previous(): (t: S.Token)
      requires current <= |tokens| && |tokens| > 0
      reads this
      ensures t in tokens
      ensures current > 0 ==> t == tokens[current - 1]
      ensures current == 0 ==> t == tokens[|tokens| - 1]
    {
      if current == 0 then tokens[|tokens| - 1] else tokens[current - 1]
    }

    /** Consumes the current token and returns it; only ever called on a
        token that `check` has just seen. */
    method Advance() returns (t: S.Token)
      requires Valid() && current < |tokens|
      modifies this
      ensures Valid() && current == old(current) + 1
      ensures t == tokens[old(current)]
    {
      if !IsAtEnd() {
        current := current + 1;
      }
      t := Previous();
    }

    /** Consumes the current token exactly when it has kind `k`. */
    method Match(k: S.Kind) returns (b: bool)
      requires Valid()
      modifies this
      ensures Valid()
      ensures b == G.Check(tokens, old(current), k)
      ensures current == old(current) + (if b then 1 else 0)
    {
      b := Check(k);
      if b {
        var _ := Advance();
      }
    }

    /** Consumes the current token exactly when its kind is one of `kinds`;
        false at the end of input. */
    method MatchAny(kinds: seq<S.Kind>) returns (b: bool)
      requires Valid()
      modifies this
      ensures Valid()
      ensures b <==> old(current) < |tokens| && tokens[old(current)].kind in kinds
      ensures current == old(current) + (if b then 1 else 0)
    {
      if IsAtEnd() {
        return false;
      }
      var currentType := tokens[current].kind;
      for i := 0 to |kinds|
        invariant current == old(current)
        invariant currentType !in kinds[..i]
      {
        if currentType == kinds[i] {
          var _ := Advance();
          return true;
        }
      }
      assert kinds[..|kinds|] == kinds;
      return false;
    }

    /** `error(message)`: the failure raised at the current cursor, which
        is "end of input" when the cursor is at the end. */
    function Raise(message: G.Message): (f: G.Failure)
      reads this
      ensures f.Error? && f.message == message && f.at == current
    {
      G.Error(message, current)
    }

    // ----------------------------------------------------------------
    // Expressions
    // ----------------------------------------------------------------

    method ParseFactor() returns (r: Result<Node, G.Failure>)
      requires Valid()
      modifies this
      ensures Valid()
      ensures Reached(r, current) == G.ParseFactor(tokens, old(current))
      decreases |tokens| - current, 0
    {
      var isNumber := Match(S.Number);
      if isNumber {
        return Ok(Number(Previous().lexeme));
      }
      var isIdentifier := Match(S.Identifier);
      if isIdentifier {
        return Ok(Identifier(Previous().lexeme));
      }
      var isParen := Match(S.LeftParen);
      if isParen {
        var expr := ParseExpression();
        if expr.Err? {
          return expr;
        }
        var closed := Match(S.RightParen);
        if !closed {
          return Err(Raise(G.ExpectedRightParenAfterExpression));
        }
        return expr;
      }
      return Err(Raise(G.ExpectedFactor));
    }

    method ParseTerm() returns (r: Result<Node, G.Failure>)
      requires Valid()
      modifies this
      ensures Valid()
      ensures Reached(r, current) == G.ParseTerm(tokens, old(current))
      decreases |tokens| - current, 2
    {
      var start := current;
      var first := ParseFactor();
      if first.Err? {
        return first;
      }
      var left := first.value;
      while true
        invariant Valid() && start < current
        invariant G.ParseTerm(tokens, start) == G.TermLoop(tokens, left, current)
        decreases |tokens| - current
      {
        var isOperator := MatchAny([S.Operator]);
        if !isOperator {
          break;
        }
        var operator := Previous().lexeme;
        if !G.IsMultiplicativeOp(operator) {
          current := current - 1;
          break;
        }
        var right := ParseFactor();
        if right.Err? {
          return right;
        }
        left := BinaryOperation(left, operator, right.value);
      }
      return Ok(left);
    }

    method ParseExpression() returns (r: Result<Node, G.Failure>)
      requires Valid()
      modifies this
      ensures Valid()
      ensures Reached(r, current) == G.ParseExpression(tokens, old(current))
      decreases |tokens| - current, 4
    {
      var start := current;
      var first := ParseTerm();
      if first.Err? {
        return first;
      }
      var left := first.value;
      while true
        invariant Valid() && start < current
        invariant G.ParseExpression(tokens, start) == G.ExpressionLoop(tokens, left, current)
        decreases |tokens| - current
      {
        var isOperator := MatchAny([S.Operator]);
        if !isOperator {
          break;
        }
        var operator := Previous().lexeme;
        if !G.IsAdditiveOp(operator) {
          current := current - 1;
          break;
        }
        var right := ParseTerm();
        if right.Err? {
          return right;
        }
        left := BinaryOperation(left, operator, right.value);
      }
      return Ok(left);
    }

    method ParseCondition() returns (r: Result<Node, G.Failure>)
      requires Valid()
      modifies this
      ensures Valid()
      ensures Reached(r, current) == G.ParseCondition(tokens, old(current))
      decreases |tokens| - current, 5
    {
      var left := ParseExpression();
      if left.Err? {
        return left;
      }
      var isComparison := MatchAny([S.Operator, S.Equal, S.NotEqual]);
      if isComparison {
        var operator := Previous().lexeme;
        var right := ParseExpression();
        if right.Err? {
          return right;
        }
        return Ok(BinaryOperation(left.value, operator, right.value));
      }
      return left;
    }

    // ----------------------------------------------------------------
    // Statements
    // ----------------------------------------------------------------

    /** `parse_let_statement`, entered after the `let` token. */
    method ParseLet() returns (r: Result<Node, G.Failure>)
      requires Valid()
      modifies this
      ensures Valid()
      ensures Reached(r, current) == G.ParseLet(tokens, old(current))
      decreases |tokens| - current, 5
    {
      var named := Check(S.Identifier);
      if !named {
        return Err(Raise(G.ExpectedIdentifierAfterLet));
      }
      var name := Advance();
      var isEqual := Match(S.Equal);
      if !isEqual {
        return Err(Raise(G.ExpectedEqualAfterIdentifier));
      }
      var expr := ParseExpression();
      if expr.Err? {
        return expr;
      }
      return Ok(LetStatement(name.lexeme, expr.value));
    }

    /** The argument loop of `parse_call_statement`: an expression, then
        another one after each comma. */
    method ArgumentList() returns (r: Result<seq<Node>, G.Failure>)
      requires Valid()
      modifies this
      ensures Valid()
      ensures Reached(r, current) == G.ArgumentLoop(tokens, [], old(current))
      decreases |tokens| - current, 5
    {
      var start := current;
      var arguments: seq<Node> := [];
      while true
        invariant Valid() && start <= current
        invariant G.ArgumentLoop(tokens, [], start) == G.ArgumentLoop(tokens, arguments, current)
        decreases |tokens| - current
      {
        var argument := ParseExpression();
        if argument.Err? {
          return Err(argument.error);
        }
        arguments := arguments + [argument.value];
        var comma := Match(S.Comma);
        if !comma {
          break;
        }
      }
      return Ok(arguments);
    }

    /** `parse_call_statement`, entered after the `call` token. */
    method ParseCall() returns (r: Result<Node, G.Failure>)
      requires Valid()
      modifies this
      ensures Valid()
      ensures Reached(r, current) == G.ParseCall(tokens, old(current))
      decreases |tokens| - current, 6
    {
      var named := Check(S.Identifier);
      if !named {
        return Err(Raise(G.ExpectedFunctionName));
      }
      var name := Advance();
      var isOpen := Match(S.LeftParen);
      if !isOpen {
        return Err(Raise(G.ExpectedLeftParen));
      }
      var arguments: seq<Node> := [];
      var empty := Check(S.RightParen);
      if !empty {
        var list := ArgumentList();
        if list.Err? {
          return Err(list.error);
        }
        arguments := list.value;
      }
      var closed := Match(S.RightParen);
      if !closed {
        return Err(Raise(G.ExpectedRightParenAfterArguments));
      }
      return Ok(CallStatement(name.lexeme, arguments));
    }

    /** `parse_if_statement`, entered after the `if` token. */
    method ParseIf() returns (r: Result<Node, G.Failure>)
      requires Valid()
      modifies this
      ensures Valid()
      ensures Reached(r, current) == G.ParseIf(tokens, old(current))
      decreases |tokens| - current, 6
    {
      var condition := ParseCondition();
      if condition.Err? {
        return condition;
      }
      r := IfAfterCondition(condition.value);
    }

    /** `parse_if_statement` once the condition is read: `then` and the
        then-list. */
    method IfAfterCondition(condition: Node) returns (r: Result<Node, G.Failure>)
      requires Valid()
      modifies this
      ensures Valid()
      ensures Reached(r, current) == G.IfAfterCondition(tokens, condition, old(current))
      decreases |tokens| - current, 6
    {
      var isThen := Match(S.Kw(S.Then));
      if !isThen {
        return Err(Raise(G.ExpectedThen));
      }
      var thenStatements := StatementsUntil({S.Kw(S.Else), S.Kw(S.Endif)});
      if thenStatements.Err? {
        return Err(thenStatements.error);
      }
      r := IfAfterThen(condition, thenStatements.value);
    }

    /** `parse_if_statement` once the then-list is read: the optional
        else-list and `endif`. */
    method IfAfterThen(condition: Node, thenStatements: seq<Node>) returns (r: Result<Node, G.Failure>)
      requires Valid()
      modifies this
      ensures Valid()
      ensures Reached(r, current) == G.IfAfterThen(tokens, condition, thenStatements, old(current))
      decreases |tokens| - current, 6
    {
      var elseStatements: seq<Node> := [];
      var isElse := Match(S.Kw(S.Else));
      if isElse {
        var statements := StatementsUntil({S.Kw(S.Endif)});
        if statements.Err? {
          return Err(statements.error);
        }
        elseStatements := statements.value;
      }
      var isEndif := Match(S.Kw(S.Endif));
      if !isEndif {
        return Err(Raise(G.ExpectedEndif));
      }
      return Ok(IfStatement(condition, thenStatements, G.ElseOf(elseStatements)));
    }

    /** `parse_statement`: `None` without consuming anything when the
        current token starts no statement. */
    method ParseStatement() returns (r: Result<Option<Node>, G.Failure>)
      requires Valid()
      modifies this
      ensures Valid()
      ensures Reached(r, current) == G.ParseStatement(tokens, old(current))
      decreases |tokens| - current, 7
    {
      ghost var start := current;
      var statement: Result<Node, G.Failure>;
      var isLet := Match(S.Kw(S.Let));
      if isLet {
        statement := ParseLet();
        assert G.ParseStatement(tokens, start) == G.AsStatement(Reached(statement, current));
      } else {
        var isIf := Match(S.Kw(S.If));
        if isIf {
          statement := ParseIf();
          assert G.ParseStatement(tokens, start) == G.AsStatement(Reached(statement, current));
        } else {
          var isCall := Match(S.Kw(S.Call));
          if isCall {
            statement := ParseCall();
            assert G.ParseStatement(tokens, start) == G.AsStatement(Reached(statement, current));
          } else {
            return Ok(None);
          }
        }
      }
      if statement.Err? {
        return Err(statement.error);
      }
      return Ok(Some(statement.value));
    }

    /** The statement loops of `parse` and `parse_if_statement`: statements
        up to the end of input or a token whose kind is in `stops`.  Where
        `parse_statement` returns `None` the source loops forever; here the
        loop returns `Diverges` at that token instead. */
    method StatementsUntil(stops: set<S.Kind>) returns (r: Result<seq<Node>, G.Failure>)
      requires Valid()
      modifies this
      ensures Valid()
      ensures Reached(r, current) == G.StatementsUntil(tokens, old(current), [], stops)
      decreases |tokens| - current, 8
    {
      var start := current;
      var statements: seq<Node> := [];
      while !IsAtEnd() && tokens[current].kind !in stops
        invariant Valid() && start <= current
        invariant G.StatementsUntil(tokens, start, [], stops) == G.StatementsUntil(tokens, current, statements, stops)
        decreases |tokens| - current
      {
        var before := current;
        var statement := ParseStatement();
        if statement.Err? {
          return Err(statement.error);
        }
        if statement.value.None? {
          return Err(G.Diverges(before));
        }
        statements := statements + [statement.value.value];
      }
      return Ok(statements);
    }

    /** `parse`: `begin`, statements up to `end`, `end`. */
    method Parse() returns (r: Result<Node, G.Failure>)
      requires Valid()
      modifies this
      ensures Valid()
      ensures Reached(r, current) == G.ParseProgram(tokens, old(current))
    {
      var isBegin := Match(S.Kw(S.Begin));
      if !isBegin {
        return Err(Raise(G.ExpectedBegin));
      }
      var statements := StatementsUntil({S.Kw(S.End)});
      if statements.Err? {
        return Err(statements.error);
      }
      var isEnd := Match(S.Kw(S.End));
      if !isEnd {
        return Err(Raise(G.ExpectedEnd));
      }
      return Ok(Program(statements.value));
    }
  }
}
