/** Properties of the syntax validator's specification: what `_consume`
    and the statement dispatch raise, where blocks stop, the shape of the
    expression and condition nodes, the assignment operators and parameter
    lists it accepts, the scope stack and the return rule. */
module ValidationFacts {
  import opened Options
  import opened Validation

  // ------------------------------------------------------------------
  // Consuming tokens
  // ------------------------------------------------------------------

  /** `_consume` has two outcomes: the expected token, one token on, or a
      "missing" error at the current token with its line and position. */
  lemma ConsumeOutcomes(ts: seq<Token>, s: State, t: TokenType)
    requires Fits(ts, s)
    ensures var r := Consume(ts, s, t);
      && (r.Done? <==> CheckType(ts, s, t))
      && (r.Done? ==> r.value == ts[s.current] && r.after == s.(current := s.current + 1))
      && (r.Raised? ==> r.error == SyntaxError(Missing(t), ts[s.current].line, ts[s.current].position, s.current))
  {
  }

  /** The end-of-file token is never consumed: `_check` is false there
      even for the type EOF. */
  lemma EndIsNeverConsumed(ts: seq<Token>, s: State, t: TokenType)
    requires Fits(ts, s) && AtEnd(ts, s)
    ensures Consume(ts, s, t).Raised? && !MatchType(ts, s, t).0
  {
  }

  // ------------------------------------------------------------------
  // Statement dispatch
  // ------------------------------------------------------------------

  /** A token that starts no statement (CALL and the end-of-file token
      among them) fails at once with "Unexpected token" and its lexeme. */
  lemma UnexpectedStatementStart(ts: seq<Token>, s: State)
    requires Fits(ts, s) && Peek(ts, s).tokenType !in StatementStarts
    ensures ValidateStatement(ts, s) == RaiseAt(ts, s, UnexpectedToken(Peek(ts, s).lexeme))
  {
  }

  // ------------------------------------------------------------------
  // Blocks and the scope stack
  // ------------------------------------------------------------------

  /** A block that reaches the end of input before its terminator fails
      with "Unexpected token" at the end-of-file token. */
  lemma BlockLoopAtEnd(ts: seq<Token>, s: State, acc: seq<Tree>, stop: TokenType, mid: Option<TokenType>)
    requires Fits(ts, s) && AtEnd(ts, s)
    ensures StatementLoop(ts, s, acc, stop, mid) == RaiseAt(ts, s, UnexpectedToken(Peek(ts, s).lexeme))
  {
  }

  /** A validated block node has consumed its terminator as its last
      token. */
  lemma BlockEndsWithTerminator(ts: seq<Token>, s: State, end: TokenType, mid: Option<TokenType>)
    requires Fits(ts, s)
    ensures var r := ValidateBlock(ts, s, end, mid);
      r.Done? ==> ts[r.after.current - 1].tokenType == end && r.value.Node? && r.value.kind == Block
  {
    var r := ValidateBlock(ts, s, end, mid);
    if r.Done? {
      var first := StatementLoop(ts, s, [], end, mid);
      var tail := BlockTail(ts, first.after, first.value, end, mid);
      assert r == tail;
      if mid.Some? && CheckType(ts, first.after, mid.value) {
        var rest := StatementLoop(ts, Advance(ts, first.after).1, first.value, end, None);
        assert CheckType(ts, rest.after, end) && r.after.current == rest.after.current + 1;
      } else {
        assert CheckType(ts, first.after, end) && r.after.current == first.after.current + 1;
      }
    }
  }

  /** The loop of `validate` keeps the program node's earlier children and
      appends one node per statement; no `None` reaches the program. */
  lemma {:induction false} ProgramCollectsStatements(ts: seq<Token>, s: State, program: seq<Tree>)
    requires Fits(ts, s)
    ensures var r := ValidateLoop(ts, s, program);
      r.Done? ==> |r.value| >= |program| && r.value[..|program|] == program
                  && forall i :: |program| <= i < |r.value| ==> r.value[i].Node?
    decreases |ts| - s.current
  {
    var r := ValidateLoop(ts, s, program);
    if !AtEnd(ts, s) && r.Done? {
      var statement, after := LoopStep(ts, s, program);
      var next := program + [statement];
      ProgramCollectsStatements(ts, after, next);
      assert r.value[..|program|] == next[..|program|] == program;
      forall i | |program| <= i < |r.value|
        ensures r.value[i].Node?
      {
        if i == |program| {
          assert r.value[i] == next[i] == statement;
        }
      }
    }
  }

  /** One round of `validate`'s loop: a statement, then the rest. */
  lemma LoopStep(ts: seq<Token>, s: State, program: seq<Tree>) returns (statement: Tree, after: State)
    requires Fits(ts, s) && !AtEnd(ts, s)
    requires ValidateLoop(ts, s, program).Done?
    ensures statement.Node? && Fits(ts, after) && s.current < after.current
    ensures ValidateLoop(ts, s, program) == ValidateLoop(ts, after, program + [statement])
  {
    var r := ValidateStatement(ts, s);
    statement, after := r.value, r.after;
  }

  /** Starting from an empty scope stack, the "Unclosed" check of
      `validate` never fires: `validate` succeeds exactly when its loop
      does. */
  lemma UnclosedIsUnreachable(ts: seq<Token>, s: State, program: seq<Tree>)
    requires Fits(ts, s) && s.scopes == []
    ensures Validate(ts, s, program) == ValidateLoop(ts, s, program)
  {
  }

  /** Starting from a non-empty stack, a loop that succeeds is followed by
      "Unclosed" for the innermost scope. */
  lemma OpenScopeIsReported(ts: seq<Token>, s: State, program: seq<Tree>)
    requires Fits(ts, s) && s.scopes != []
    ensures var l := ValidateLoop(ts, s, program);
      l.Done? ==> Validate(ts, s, program) == RaiseAt(ts, l.after, Unclosed(s.scopes[|s.scopes| - 1]))
  {
  }

  // ------------------------------------------------------------------
  // Expressions and conditions
  // ------------------------------------------------------------------

  /** A term is never an operator leaf. */
  lemma TermIsNotOperator(ts: seq<Token>, s: State)
    requires Fits(ts, s)
    ensures var r := ValidateTerm(ts, s);
      r.Done? ==> !OperatorLeaf(r.value)
  {
  }

  /** Appending an operator leaf and a term keeps children alternating. */
  lemma AlternatingExtend(children: seq<Tree>, operator: Tree, term: Tree)
    requires Alternating(children) && OperatorLeaf(operator) && !OperatorLeaf(term)
    ensures Alternating(children + [operator, term])
  {
    var next := children + [operator, term];
    forall i | 0 <= i < |next|
      ensures OperatorLeaf(next[i]) <==> i % 2 == 1
    {
      if i < |children| {
        assert next[i] == children[i];
      }
    }
  }

  /** Each turn of the expression loop appends an operator leaf and a term,
      so the children keep alternating. */
  lemma {:induction false} TailAlternates(ts: seq<Token>, s: State, children: seq<Tree>)
    requires Fits(ts, s) && Alternating(children)
    ensures var r := ExpressionTail(ts, s, children);
      r.Done? ==> Alternating(r.value)
    decreases |ts| - s.current
  {
    if ArithmeticOperator(Peek(ts, s).tokenType) {
      var (operator, s1) := Advance(ts, s);
      var term := ValidateTerm(ts, s1);
      if term.Done? {
        TermIsNotOperator(ts, s1);
        AlternatingExtend(children, Leaf(Operator(operator.lexeme)), term.value);
        TailAlternates(ts, term.after, children + [Leaf(Operator(operator.lexeme)), term.value]);
      }
    }
  }

  /** An expression node's children are terms and operators in turn,
      starting and ending with a term: the validator builds a flat list
      with no precedence. */
  lemma ExpressionAlternates(ts: seq<Token>, s: State)
    requires Fits(ts, s)
    ensures var r := ValidateExpression(ts, s);
      r.Done? ==> r.value.Node? && r.value.kind == Expression && Alternating(r.value.children)
  {
    var term := ValidateTerm(ts, s);
    if term.Done? {
      TermIsNotOperator(ts, s);
      assert Alternating([term.value]);
      TailAlternates(ts, term.after, [term.value]);
    }
  }

  /** A condition is an expression, a comparison operator and an
      expression: its middle child is the operator leaf of a comparison
      token, and without a comparison after the left expression it fails
      there with "Expected comparison operator". */
  lemma ConditionNeedsComparison(ts: seq<Token>, s: State)
    requires Fits(ts, s)
    ensures var r := ValidateCondition(ts, s);
      r.Done? ==> r.value.Node? && r.value.kind == Condition && |r.value.children| == 3
                  && exists i :: s.current < i < r.after.current && Comparison(ts[i].tokenType)
                                 && r.value.children[1] == Leaf(Operator(ts[i].lexeme))
    ensures var left := ValidateExpression(ts, s);
      left.Done? && !Comparison(Peek(ts, left.after).tokenType) ==>
        ValidateCondition(ts, s) == RaiseAt(ts, left.after, ExpectedComparison(Peek(ts, left.after).lexeme))
  {
    var r := ValidateCondition(ts, s);
    if r.Done? {
      var left := ValidateExpression(ts, s);
      var i := left.after.current;
      assert Comparison(ts[i].tokenType) && r.value.children[1] == Leaf(Operator(ts[i].lexeme));
    }
  }

  // ------------------------------------------------------------------
  // Assignments and parameter lists
  // ------------------------------------------------------------------

  const AssignOperators: set<TokenType> := {Equal, PlusEqual, MultiplyEqual}

  /** An assignment's operator is `=`, `+=` or `*=`; any other token after
      the identifier (`-=` and `/=` included) fails there. */
  lemma AssignmentOperators(ts: seq<Token>, s: State)
    requires Fits(ts, s)
    ensures var r := ValidateAssignment(ts, s);
      r.Done? ==> |r.value.children| == 3 && r.value.children[1].Node?
                  && r.value.children[1].kind in {AssignOperator("="), AssignOperator("+="), AssignOperator("*=")}
    ensures Peek(ts, s).tokenType == Identifier && ts[s.current + 1].tokenType !in AssignOperators ==>
      ValidateAssignment(ts, s) == RaiseAt(ts, s.(current := s.current + 1), ExpectedAssignmentOperator)
  {
  }

  /** The `j`-th `, identifier` pair from `p`. */
  predicate PairAt(ts: seq<Token>, p: nat, j: nat) {
    p + 2 * j + 1 < |ts| && ts[p + 2 * j].tokenType == Comma && ts[p + 2 * j + 1].tokenType == Identifier
  }

  /** `k` repetitions of `, identifier` at `p`, followed by something
      other than a comma. */
  predicate ParametersAt(ts: seq<Token>, p: nat, k: nat) {
    && p + 2 * k < |ts|
    && (forall j: nat :: j < k ==> PairAt(ts, p, j))
    && ts[p + 2 * k].tokenType != Comma
  }

  /** The parameter loop consumes every `, identifier` pair and stops at
      the first token that is not a comma. */
  lemma {:induction false} ParameterTailConsumes(ts: seq<Token>, s: State, k: nat)
    requires Fits(ts, s) && ParametersAt(ts, s.current, k)
    ensures ParameterTail(ts, s) == Done(NoTree, s.(current := s.current + 2 * k))
    decreases k
  {
    if k > 0 {
      assert PairAt(ts, s.current, 0);
      var s2 := s.(current := s.current + 2);
      assert ParametersAt(ts, s2.current, k - 1) by {
        forall j: nat | j < k - 1
          ensures PairAt(ts, s2.current, j)
        {
          assert PairAt(ts, s.current, j + 1);
        }
      }
      ParameterTailConsumes(ts, s2, k - 1);
    }
  }

  /** A comma in a parameter list must be followed by a parameter name. */
  lemma TrailingParameterCommaFails(ts: seq<Token>, s: State)
    requires Fits(ts, s) && Peek(ts, s).tokenType == Comma && ts[s.current + 1].tokenType != Identifier
    ensures ParameterTail(ts, s) == RaiseAt(ts, s.(current := s.current + 1), Missing(Identifier))
  {
  }

  // ------------------------------------------------------------------
  // The return rule
  // ------------------------------------------------------------------

  /** Once its header and body validate, a function definition succeeds
      exactly when a RETURN was validated in the body since the function
      began; otherwise it raises "must have at least one RETURN" at the
      token after END. */
  lemma MissingReturnRule(ts: seq<Token>, s: State)
    requires Fits(ts, s) && Peek(ts, s).tokenType == Func
    ensures var header := FunctionHeader(ts, Advance(ts, s).1);
      header.Done? ==>
        var body := ValidateBlock(ts, Push(header.after, FuncScope).(inFunction := true, hadReturn := false), End, None);
        body.Done? ==>
          && (ValidateFunctionDefinition(ts, s).Done? <==> body.after.hadReturn)
          && (!body.after.hadReturn ==> ValidateFunctionDefinition(ts, s) == RaiseAt(ts, body.after, MissingReturn))
  {
    assert Consume(ts, s, Func) == Done(Peek(ts, s), Advance(ts, s).1);
  }

  // ------------------------------------------------------------------
  // IF and its ELSE
  // ------------------------------------------------------------------

  /** A block whose terminator comes at once is empty and ends after it. */
  lemma EmptyBlock(ts: seq<Token>, s: State, end: TokenType, mid: Option<TokenType>)
    requires Fits(ts, s) && end != Eof && ts[s.current].tokenType == end
    requires mid.Some? ==> mid.value != end
    ensures ValidateBlock(ts, s, end, mid) == Done(Node(Block, []), s.(current := s.current + 1))
  {
    assert StatementLoop(ts, s, [], end, mid) == Done([], s);
  }

  /** A block whose middle token and terminator come at once is empty and
      ends after both. */
  lemma EmptyBlockAfterMid(ts: seq<Token>, s: State, end: TokenType, mid: TokenType)
    requires Fits(ts, s) && s.current + 1 < |ts| && mid != Eof && end != Eof && mid != end
    requires ts[s.current].tokenType == mid && ts[s.current + 1].tokenType == end
    ensures ValidateBlock(ts, s, end, Some(mid)) == Done(Node(Block, []), s.(current := s.current + 2))
  {
    var s1 := s.(current := s.current + 1);
    assert StatementLoop(ts, s, [], end, Some(mid)) == Done([], s);
    assert StatementLoop(ts, s1, [], end, None) == Done([], s1);
  }

  /** The IF scope's body from its then-block and its else part. */
  lemma IfBodyOfParts(ts: seq<Token>, b: State, thenBlock: Tree, t: State, elsePart: seq<Tree>, e: State)
    requires Fits(ts, b) && ValidateBlock(ts, Push(b, IfScope), Endif, Some(Else)) == Done(thenBlock, t)
    requires Fits(ts, t) && ElsePart(ts, t) == Done(elsePart, e) && |e.scopes| > 0
    ensures IfBody(ts, b) == Done([Node(ThenBlock, [thenBlock])] + elsePart, Pop(e))
  {
  }

  /** No ELSE after the then-block: the else part is empty. */
  lemma NoElsePart(ts: seq<Token>, s: State)
    requires Fits(ts, s) && ts[s.current].tokenType != Else
    ensures ElsePart(ts, s) == Done([], s)
  {
  }

  /** ELSE and ENDIF after the then-block: an else block holding an empty
      block. */
  lemma EmptyElsePart(ts: seq<Token>, s: State)
    requires Fits(ts, s) && s.current + 2 < |ts| && ts[s.current].tokenType == Else
    requires ts[s.current + 1].tokenType == Endif
    ensures ElsePart(ts, s) == Done([Node(ElseBlock, [Node(Block, [])])], s.(current := s.current + 2))
  {
    EmptyBlock(ts, s.(current := s.current + 1), Endif, None);
  }

  /** The IF scope's body on `ELSE ENDIF`: the then-block stops at the
      ELSE and takes the ENDIF as its terminator, so no else part follows.
      `ValidateIf` puts these branches after the condition: in `IF c THEN
      ELSE ENDIF` the IF node has one `ThenBlock` and no `ElseBlock`. */
  lemma ElseInsideBody(ts: seq<Token>, b: State)
    requires Fits(ts, b) && b.current + 2 < |ts|
    requires ts[b.current].tokenType == Else && ts[b.current + 1].tokenType == Endif
    requires ts[b.current + 2].tokenType != Else
    ensures IfBody(ts, b) == Done([Node(ThenBlock, [Node(Block, [])])], b.(current := b.current + 2))
  {
    var inIf := Push(b, IfScope);
    var after := inIf.(current := b.current + 2);
    EmptyBlockAfterMid(ts, inIf, Endif, Else);
    assert inIf.(current := inIf.current + 2) == after;
    NoElsePart(ts, after);
    IfBodyOfParts(ts, b, Node(Block, []), after, [], after);
    PopAfterPush(b, b.current + 2);
    assert [Node(ThenBlock, [Node(Block, [])])] + [] == [Node(ThenBlock, [Node(Block, [])])];
  }

  /** The IF scope's body on `ENDIF ELSE ENDIF`: the then-block ends at the
      first ENDIF, and the ELSE after it opens an else block up to the
      second ENDIF. In `IF c THEN ENDIF ELSE ENDIF` the IF node has a
      `ThenBlock` and an `ElseBlock`, and the scope stack is as before. */
  lemma ElseAfterEndifBody(ts: seq<Token>, b: State)
    requires Fits(ts, b) && b.current + 3 < |ts|
    requires ts[b.current].tokenType == Endif && ts[b.current + 1].tokenType == Else
    requires ts[b.current + 2].tokenType == Endif
    ensures IfBody(ts, b) == Done([Node(ThenBlock, [Node(Block, [])]), Node(ElseBlock, [Node(Block, [])])],
                                  b.(current := b.current + 3))
  {
    var inIf := Push(b, IfScope);
    var t := inIf.(current := b.current + 1);
    var e := inIf.(current := b.current + 3);
    EmptyBlock(ts, inIf, Endif, Some(Else));
    assert inIf.(current := inIf.current + 1) == t;
    EmptyElsePart(ts, t);
    assert t.(current := t.current + 2) == e;
    IfBodyOfParts(ts, b, Node(Block, []), t, [Node(ElseBlock, [Node(Block, [])])], e);
    PopAfterPush(b, b.current + 3);
    ChildrenTwo(Node(ThenBlock, [Node(Block, [])]), Node(ElseBlock, [Node(Block, [])]));
  }

  /** Leaving a scope entered at `b` restores b's scope stack, wherever the
      cursor has moved. */
  lemma PopAfterPush(b: State, k: nat)
    ensures Pop(Push(b, IfScope).(current := k)) == b.(current := k)
  {
    assert (b.scopes + [IfScope])[..|b.scopes|] == b.scopes;
  }

  lemma ChildrenTwo(a: Tree, b: Tree)
    ensures [a] + [b] == [a, b]
  {
  }
}
