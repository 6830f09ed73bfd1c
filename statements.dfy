/** Properties of the phase-2 statement grammar: the program frame, the
    shape of `if` statements, condition and call round trips, the factor
    error, and the statement loop that never ends. */
module Statements {
  import opened Options
  import S = Scanning
  import opened AstNodes
  import opened Grammar
  import opened Precedence

  // ------------------------------------------------------------------
  // Program frame
  // ------------------------------------------------------------------

  /** A program parses only from a `begin` token and only up to an `end`
      token; without `begin` the error is "Expected 'BEGIN'" at the start. */
  lemma ProgramFrame(ts: seq<S.Token>, p: nat)
    requires p <= |ts|
    ensures !Check(ts, p, S.Kw(S.Begin)) ==> ParseProgram(ts, p) == Failed(Error(ExpectedBegin, p))
    ensures ParseProgram(ts, p).Parsed? ==>
              Check(ts, p, S.Kw(S.Begin)) && Check(ts, ParseProgram(ts, p).next - 1, S.Kw(S.End))
  {
  }

  /** After `begin`, the statement loop stops either at the end of input,
      where "Expected 'END'" is raised, or at `end`, which closes the
      program. */
  lemma ProgramEnd(ts: seq<S.Token>, p: nat, stmts: seq<Node>, q: nat)
    requires p < |ts| && ts[p].kind == S.Kw(S.Begin)
    requires StatementsUntil(ts, p + 1, [], {S.Kw(S.End)}) == Parsed(stmts, q)
    ensures q == |ts| ==> ParseProgram(ts, p) == Failed(Error(ExpectedEnd, |ts|))
    ensures q < |ts| ==> ParseProgram(ts, p) == Parsed(Program(stmts), q + 1)
  {
  }

  /** A token that starts no statement and is no `end` sends the program's
      statement loop round forever: `BEGIN x END`. */
  lemma StrayTokenDiverges()
    ensures ParseProgram([S.Token(S.Kw(S.Begin), "BEGIN"), S.Token(S.Identifier, "x"),
                          S.Token(S.Kw(S.End), "END")], 0)
            == Failed(Diverges(1))
  {
  }

  /** The statement loop runs forever exactly at a token that is not a
      stop and starts no statement. */
  lemma DivergesAtStrayToken(ts: seq<S.Token>, p: nat, acc: seq<Node>, stops: set<S.Kind>)
    requires p <= |ts|
    requires StatementsUntil(ts, p, acc, stops) == Failed(Diverges(p))
    ensures p < |ts| && ts[p].kind !in stops
    ensures ts[p].kind != S.Kw(S.Let) && ts[p].kind != S.Kw(S.If) && ts[p].kind != S.Kw(S.Call)
  {
  }

  /** The converse: at such a token the loop runs forever. */
  lemma StrayTokenStopsNothing(ts: seq<S.Token>, p: nat, acc: seq<Node>, stops: set<S.Kind>)
    requires p < |ts| && ts[p].kind !in stops
    requires ts[p].kind != S.Kw(S.Let) && ts[p].kind != S.Kw(S.If) && ts[p].kind != S.Kw(S.Call)
    ensures StatementsUntil(ts, p, acc, stops) == Failed(Diverges(p))
  {
  }

  // ------------------------------------------------------------------
  // Factors
  // ------------------------------------------------------------------

  /** "Expected number, identifier, or '('" at `p` happens exactly when
      the token at `p` is none of those (or there is none). */
  lemma FactorFailsExactly(ts: seq<S.Token>, p: nat)
    requires p <= |ts|
    ensures ParseFactor(ts, p) == Failed(Error(ExpectedFactor, p)) <==>
            !Check(ts, p, S.Number) && !Check(ts, p, S.Identifier) && !Check(ts, p, S.LeftParen)
  {
    if Check(ts, p, S.LeftParen) {
      var inner := ParseExpression(ts, p + 1);
      assert inner.Failed? ==> inner.failure.at > p;
    }
  }

  /** A parenthesised expression yields the inner expression itself, with
      no node of its own. */
  lemma ParenthesesAddNoNode(e: Node, ts: seq<S.Token>, p: nat)
    requires Arith(e) && At(ts, p, WriteFactor(e)) && e.BinaryOperation?
    ensures ParseFactor(ts, p) == Parsed(e, p + |WriteExpression(e)| + 2)
  {
    FactorRoundTrip(e, ts, p);
  }

  // ------------------------------------------------------------------
  // Conditions
  // ------------------------------------------------------------------

  /** A condition with a comparison after its first expression. */
  lemma ConditionStep(ts: seq<S.Token>, p: nat, left: Node, q: nat, right: Node, q2: nat)
    requires p <= |ts| && ParseExpression(ts, p) == Parsed(left, q)
    requires q < |ts| && IsComparison(ts[q].kind)
    requires ParseExpression(ts, q + 1) == Parsed(right, q2)
    ensures ParseCondition(ts, p) == Parsed(BinaryOperation(left, ts[q].lexeme, right), q2)
  {
  }

  /** `left cmp right` parses as one operation whose operator is the
      comparison token's lexeme. */
  lemma ConditionRoundTrip(left: Node, cmp: S.Token, right: Node, rest: seq<S.Token>)
    requires Arith(left) && Arith(right) && IsComparison(cmp.kind)
    requires !IsAdditiveOp(cmp.lexeme) && !IsMultiplicativeOp(cmp.lexeme)
    requires !AdditiveAt(rest, 0) && !MultiplicativeAt(rest, 0)
    ensures var ts := WriteExpression(left) + [cmp] + WriteExpression(right) + rest;
            ParseCondition(ts, 0) == Parsed(BinaryOperation(left, cmp.lexeme, right), |ts| - |rest|)
  {
    var ul, ur := WriteExpression(left), WriteExpression(right);
    var ts := ul + [cmp] + ur + rest;
    assert ts == [] + ul + ([cmp] + ur + rest);
    ExpressionInside(left, [], [cmp] + ur + rest, 0);
    ExpressionInside(right, ul + [cmp], rest, |ul + [cmp]|);
    ConditionOfParts(ts, ul, cmp, ur, rest, left, right);
  }

  /** Where the comparison of `ul + [cmp] + ur + rest` lies. */
  lemma ComparisonAt(ul: seq<S.Token>, cmp: S.Token, ur: seq<S.Token>, rest: seq<S.Token>)
    ensures var ts := ul + [cmp] + ur + rest;
            |ul| < |ts| && ts[|ul|] == cmp && |ts| - |rest| == |ul| + 1 + |ur|
  {
  }

  /** A condition read as its two expressions around a comparison, with
      the comparison written between them. */
  lemma ConditionOfParts(ts: seq<S.Token>, ul: seq<S.Token>, cmp: S.Token, ur: seq<S.Token>, rest: seq<S.Token>,
                         left: Node, right: Node)
    requires ts == ul + [cmp] + ur + rest && IsComparison(cmp.kind)
    requires ParseExpression(ts, 0) == Parsed(left, |ul|)
    requires ParseExpression(ts, |ul + [cmp]|) == Parsed(right, |ul + [cmp]| + |ur|)
    ensures ParseCondition(ts, 0) == Parsed(BinaryOperation(left, cmp.lexeme, right), |ts| - |rest|)
  {
    ComparisonAt(ul, cmp, ur, rest);
    ConditionAround(ts, |ul|, cmp, |ul| + 1 + |ur|, left, right);
  }

  /** A condition read as its two expressions around a comparison. */
  lemma ConditionAround(ts: seq<S.Token>, q: nat, cmp: S.Token, q2: nat, left: Node, right: Node)
    requires q < |ts| && ts[q] == cmp && IsComparison(cmp.kind)
    requires ParseExpression(ts, 0) == Parsed(left, q)
    requires ParseExpression(ts, q + 1) == Parsed(right, q2)
    ensures ParseCondition(ts, 0) == Parsed(BinaryOperation(left, cmp.lexeme, right), q2)
  {
    ConditionStep(ts, 0, left, q, right, q2);
  }

  /** A written expression between a prefix and tokens that do not
      continue it parses back from where the prefix ends. */
  lemma ExpressionInside(e: Node, prefix: seq<S.Token>, rest: seq<S.Token>, p: nat)
    requires Arith(e) && p == |prefix|
    requires !AdditiveAt(rest, 0) && !MultiplicativeAt(rest, 0)
    ensures var u := WriteExpression(e);
            ParseExpression(prefix + u + rest, p) == Parsed(e, p + |u|)
  {
    var u := WriteExpression(e);
    var ts := prefix + u + rest;
    AtInside(prefix, u, rest);
    OperatorAfter(prefix + u, rest);
    ExpressionAt(e, ts, p);
  }

  /** `u` occurs in `prefix + u + rest` right after the prefix. */
  lemma AtInside(prefix: seq<S.Token>, u: seq<S.Token>, rest: seq<S.Token>)
    ensures At(prefix + u + rest, |prefix|, u)
  {
    forall i | 0 <= i < |u| ensures (prefix + u + rest)[|prefix| + i] == u[i] {
    }
  }

  /** The operator test right after a prefix is the test at the start of
      what follows it. */
  lemma OperatorAfter(prefix: seq<S.Token>, rest: seq<S.Token>)
    ensures AdditiveAt(prefix + rest, |prefix|) == AdditiveAt(rest, 0)
    ensures MultiplicativeAt(prefix + rest, |prefix|) == MultiplicativeAt(rest, 0)
  {
    if |rest| > 0 {
      assert (prefix + rest)[|prefix|] == rest[0];
    }
  }

  /** Without a comparison after it, a condition is the bare expression. */
  lemma ConditionWithoutComparison(e: Node, rest: seq<S.Token>)
    requires Arith(e)
    requires |rest| > 0 ==> !IsComparison(rest[0].kind)
    ensures ParseCondition(WriteExpression(e) + rest, 0) == Parsed(e, |WriteExpression(e)|)
  {
    var u := WriteExpression(e);
    var ts := u + rest;
    if |rest| > 0 {
      assert ts[|u|] == rest[0];
    }
    ExpressionRoundTrip(e, rest);
  }

  // ------------------------------------------------------------------
  // If statements
  // ------------------------------------------------------------------

  /** A parsed `if` ends at an `endif` token, and its else branch is
      `NoElse` unless it holds statements, even when `else` was written. */
  lemma IfShape(ts: seq<S.Token>, p: nat)
    requires p <= |ts|
    ensures ParseIf(ts, p).Parsed? ==>
              var r := ParseIf(ts, p);
              r.value.IfStatement? && Check(ts, r.next - 1, S.Kw(S.Endif))
              && (r.value.elseBranch.ElseList? ==> r.value.elseBranch.statements != [])
  {
    var rc := ParseCondition(ts, p);
    if rc.Parsed? {
      IfAfterConditionShape(ts, rc.value, rc.next);
    }
  }

  lemma IfAfterConditionShape(ts: seq<S.Token>, c: Node, q: nat)
    requires q <= |ts|
    ensures IfAfterCondition(ts, c, q).Parsed? ==>
              var r := IfAfterCondition(ts, c, q);
              r.value.IfStatement? && Check(ts, r.next - 1, S.Kw(S.Endif))
              && (r.value.elseBranch.ElseList? ==> r.value.elseBranch.statements != [])
  {
    if Check(ts, q, S.Kw(S.Then)) {
      var rt := StatementsUntil(ts, q + 1, [], {S.Kw(S.Else), S.Kw(S.Endif)});
      if rt.Parsed? {
        IfAfterThenShape(ts, c, rt.value, rt.next);
      }
    }
  }

  lemma IfAfterThenShape(ts: seq<S.Token>, c: Node, thenList: seq<Node>, q2: nat)
    requires q2 <= |ts|
    ensures IfAfterThen(ts, c, thenList, q2).Parsed? ==>
              var r := IfAfterThen(ts, c, thenList, q2);
              r.value.IfStatement? && Check(ts, r.next - 1, S.Kw(S.Endif))
              && (r.value.elseBranch.ElseList? ==> r.value.elseBranch.statements != [])
  {
  }

  /** `IF x THEN ELSE ENDIF` has no else branch. */
  lemma EmptyElseIsNone()
    ensures ParseIf([S.Token(S.Identifier, "x"), S.Token(S.Kw(S.Then), "THEN"),
                     S.Token(S.Kw(S.Else), "ELSE"), S.Token(S.Kw(S.Endif), "ENDIF")], 0)
            == Parsed(IfStatement(Identifier("x"), [], NoElse), 4)
  {
    var ts := [S.Token(S.Identifier, "x"), S.Token(S.Kw(S.Then), "THEN"),
               S.Token(S.Kw(S.Else), "ELSE"), S.Token(S.Kw(S.Endif), "ENDIF")];
    ConditionWithoutComparison(Identifier("x"), ts[1..]);
    assert WriteExpression(Identifier("x")) + ts[1..] == ts;
    EmptyBranches(ts, Identifier("x"), 1);
  }

  /** `THEN ELSE ENDIF` after a condition read up to `q`. */
  lemma EmptyBranches(ts: seq<S.Token>, c: Node, q: nat)
    requires q + 2 < |ts| && ParseCondition(ts, 0) == Parsed(c, q)
    requires ts[q].kind == S.Kw(S.Then) && ts[q + 1].kind == S.Kw(S.Else) && ts[q + 2].kind == S.Kw(S.Endif)
    ensures ParseIf(ts, 0) == Parsed(IfStatement(c, [], NoElse), q + 3)
  {
    StopsAt(ts, q + 1, {S.Kw(S.Else), S.Kw(S.Endif)});
    assert IfAfterCondition(ts, c, q) == IfAfterThen(ts, c, [], q + 1);
    StopsAt(ts, q + 2, {S.Kw(S.Endif)});
  }

  /** A statement loop that starts on one of its stop tokens reads
      nothing. */
  lemma StopsAt(ts: seq<S.Token>, p: nat, stops: set<S.Kind>)
    requires p < |ts| && ts[p].kind in stops
    ensures StatementsUntil(ts, p, [], stops) == Parsed([], p)
  {
  }

  // ------------------------------------------------------------------
  // Let statements
  // ------------------------------------------------------------------

  /** `LET x = e` — the `let` token already read — parses to the
      assignment of exactly that expression to `x`, and stops right after
      the expression when no arithmetic operator follows it. */
  lemma LetRoundTrip(x: string, e: Node, rest: seq<S.Token>)
    requires Arith(e)
    requires !AdditiveAt(rest, 0) && !MultiplicativeAt(rest, 0)
    ensures var ts := [S.Token(S.Identifier, x), S.Token(S.Equal, "=")] + WriteExpression(e) + rest;
            ParseLet(ts, 0) == Parsed(LetStatement(x, e), |ts| - |rest|)
  {
    var prefix := [S.Token(S.Identifier, x), S.Token(S.Equal, "=")];
    var ts := prefix + WriteExpression(e) + rest;
    assert ts[0] == prefix[0] && ts[1] == prefix[1];
    ExpressionInside(e, prefix, rest, 2);
  }

  /** The two errors of `parse_let_statement`: without an identifier after
      `let` the error is at that token; with an identifier but no `=`
      after it, the error is at the token after the identifier. */
  lemma LetErrors(ts: seq<S.Token>, p: nat)
    requires p <= |ts|
    ensures !Check(ts, p, S.Identifier) ==> ParseLet(ts, p) == Failed(Error(ExpectedIdentifierAfterLet, p))
    ensures Check(ts, p, S.Identifier) && !Check(ts, p + 1, S.Equal) ==>
              ParseLet(ts, p) == Failed(Error(ExpectedEqualAfterIdentifier, p + 1))
    ensures ParseLet(ts, p).Parsed? ==> Check(ts, p, S.Identifier) && Check(ts, p + 1, S.Equal)
  {
  }

  // ------------------------------------------------------------------
  // Calls
  // ------------------------------------------------------------------

  predicate AllArith(args: seq<Node>) {
    forall i :: 0 <= i < |args| ==> Arith(args[i])
  }

  const Comma := S.Token(S.Comma, ",")

  /** The written argument list: expressions separated by commas. */
  function WriteArguments(args: seq<Node>): (u: seq<S.Token>)
    requires AllArith(args)
    ensures args != [] ==> StartsFactor(u)
  {
    if args == [] then []
    else
      ExpressionStartsFactor(args[0]);
      if |args| == 1 then WriteExpression(args[0])
      else WriteExpression(args[0]) + [Comma] + WriteArguments(args[1..])
  }

  /** One round of the argument loop that ends at a comma. */
  lemma ArgumentStep(ts: seq<S.Token>, acc: seq<Node>, p: nat, e: Node, q: nat)
    requires p <= |ts| && ParseExpression(ts, p) == Parsed(e, q) && Check(ts, q, S.Comma)
    ensures ArgumentLoop(ts, acc, p) == ArgumentLoop(ts, acc + [e], q + 1)
  {
  }

  /** The round of the argument loop that ends at anything but a comma. */
  lemma ArgumentLast(ts: seq<S.Token>, acc: seq<Node>, p: nat, e: Node, q: nat)
    requires p <= |ts| && ParseExpression(ts, p) == Parsed(e, q) && !Check(ts, q, S.Comma)
    ensures ArgumentLoop(ts, acc, p) == Parsed(acc + [e], q)
  {
  }

  /** Where the parts of `a + [t] + b` lie when it occurs at `p`. */
  lemma AtOperand(ts: seq<S.Token>, p: nat, a: seq<S.Token>, t: S.Token, b: seq<S.Token>)
    requires At(ts, p, a + [t] + b)
    ensures At(ts, p, a) && p + |a| < |ts| && ts[p + |a|] == t && At(ts, p + |a| + 1, b)
    ensures |a + [t] + b| == |a| + 1 + |b|
  {
    AtSplit(ts, p, a + [t], b);
    AtSplit(ts, p, a, [t]);
    AtFirst(ts, p + |a|, [t]);
  }

  lemma AllArithTail(args: seq<Node>)
    requires |args| > 0 && AllArith(args)
    ensures AllArith(args[1..])
  {
    forall i | 0 <= i < |args[1..]| ensures Arith(args[1..][i]) {
      assert args[1..][i] == args[i + 1];
    }
  }

  /** Where the first argument, its comma and the remaining arguments of
      a written list of two or more lie. */
  lemma ArgumentsSplit(ts: seq<S.Token>, p: nat, args: seq<Node>)
    requires |args| > 1 && AllArith(args) && At(ts, p, WriteArguments(args))
    ensures AllArith(args[1..])
    ensures var u0, tail := WriteExpression(args[0]), WriteArguments(args[1..]);
            At(ts, p, u0) && ts[p + |u0|] == Comma && At(ts, p + |u0| + 1, tail)
            && |WriteArguments(args)| == |u0| + 1 + |tail|
  {
    AllArithTail(args);
    ArgumentsWritten(args);
    AtOperand(ts, p, WriteExpression(args[0]), Comma, WriteArguments(args[1..]));
  }

  /** A written list of two or more arguments is its first argument, a
      comma and the rest. */
  lemma ArgumentsWritten(args: seq<Node>)
    requires |args| > 1 && AllArith(args) && AllArith(args[1..])
    ensures WriteArguments(args) == WriteExpression(args[0]) + [Comma] + WriteArguments(args[1..])
  {
  }

  /** A written, non-empty argument list lies at `p`, followed by `)`. */
  predicate ArgumentsAt(ts: seq<S.Token>, p: nat, args: seq<Node>) {
    args != [] && AllArith(args) && At(ts, p, WriteArguments(args))
    && Check(ts, p + |WriteArguments(args)|, S.RightParen)
  }

  /** The first round of the argument loop over a written list of two or
      more arguments, and where it leaves the rest. */
  lemma ArgumentsFirst(ts: seq<S.Token>, acc: seq<Node>, args: seq<Node>, p: nat)
    requires |args| > 1 && ArgumentsAt(ts, p, args)
    ensures var q := p + |WriteExpression(args[0])| + 1;
            ArgumentsAt(ts, q, args[1..]) && q + |WriteArguments(args[1..])| == p + |WriteArguments(args)|
            && ArgumentLoop(ts, acc, p) == ArgumentLoop(ts, acc + [args[0]], q)
  {
    ArgumentsSplit(ts, p, args);
    ExpressionAt(args[0], ts, p);
    ArgumentStep(ts, acc, p, args[0], p + |WriteExpression(args[0])|);
  }

  /** Chaining the first round of the argument loop with the rest. */
  lemma ArgumentsCons(ts: seq<S.Token>, acc: seq<Node>, args: seq<Node>, p: nat, q: nat, n: nat)
    requires |args| > 0 && p <= |ts| && q <= |ts|
    requires ArgumentLoop(ts, acc, p) == ArgumentLoop(ts, acc + [args[0]], q)
    requires ArgumentLoop(ts, acc + [args[0]], q) == Parsed(acc + [args[0]] + args[1..], n)
    ensures ArgumentLoop(ts, acc, p) == Parsed(acc + args, n)
  {
    assert acc + [args[0]] + args[1..] == acc + args;
  }

  /** The argument loop reads a written, non-empty argument list that is
      followed by `)`. */
  lemma {:induction false} ArgumentsRoundTrip(ts: seq<S.Token>, acc: seq<Node>, args: seq<Node>, p: nat)
    requires ArgumentsAt(ts, p, args)
    ensures ArgumentLoop(ts, acc, p) == Parsed(acc + args, p + |WriteArguments(args)|)
    decreases |args|
  {
    var u0 := WriteExpression(args[0]);
    if |args| == 1 {
      ExpressionAt(args[0], ts, p);
      ArgumentLast(ts, acc, p, args[0], p + |u0|);
      assert acc + [args[0]] == acc + args;
    } else {
      var q := p + |u0| + 1;
      ArgumentsFirst(ts, acc, args, p);
      ArgumentsRoundTrip(ts, acc + [args[0]], args[1..], q);
      ArgumentsCons(ts, acc, args, p, q, q + |WriteArguments(args[1..])|);
    }
  }

  /** `CALL f(a, b, …)` — the `call` token already read — parses to the
      call with exactly those arguments, the empty list included. */
  lemma CallRoundTrip(f: string, args: seq<Node>, rest: seq<S.Token>)
    requires AllArith(args)
    ensures var ts := [S.Token(S.Identifier, f), S.Token(S.LeftParen, "(")] + WriteArguments(args)
                      + [S.Token(S.RightParen, ")")] + rest;
            ParseCall(ts, 0) == Parsed(CallStatement(f, args), |ts| - |rest|)
  {
    var u := WriteArguments(args);
    var ts := [S.Token(S.Identifier, f), S.Token(S.LeftParen, "(")] + u + [S.Token(S.RightParen, ")")] + rest;
    CallLayout(f, u, rest);
    if args == [] {
      CallWithoutArguments(ts, f, args, |ts| - |rest|);
    } else {
      ArgumentsRoundTrip(ts, [], args, 2);
      CallWithArguments(ts, f, args, 2 + |u|, |ts| - |rest|);
    }
  }

  /** Where the name, the parentheses and the written arguments of a call
      lie. */
  lemma CallLayout(f: string, u: seq<S.Token>, rest: seq<S.Token>)
    ensures var ts := [S.Token(S.Identifier, f), S.Token(S.LeftParen, "(")] + u + [S.Token(S.RightParen, ")")] + rest;
            && 2 + |u| < |ts| && |ts| - |rest| == 2 + |u| + 1
            && ts[0] == S.Token(S.Identifier, f) && ts[1] == S.Token(S.LeftParen, "(")
            && At(ts, 2, u) && ts[2 + |u|] == S.Token(S.RightParen, ")")
            && (|u| > 0 ==> ts[2] == u[0])
  {
    var ts := [S.Token(S.Identifier, f), S.Token(S.LeftParen, "(")] + u + [S.Token(S.RightParen, ")")] + rest;
    forall i | 0 <= i < |u| ensures ts[2 + i] == u[i] {
    }
  }

  /** An empty argument list: `(` directly followed by `)`. */
  lemma CallWithoutArguments(ts: seq<S.Token>, f: string, args: seq<Node>, q: nat)
    requires 2 < |ts| && ts[0] == S.Token(S.Identifier, f) && ts[1] == S.Token(S.LeftParen, "(")
    requires ts[2] == S.Token(S.RightParen, ")") && args == [] && q == 3
    ensures ParseCall(ts, 0) == Parsed(CallStatement(f, args), q)
  {
  }

  /** A non-empty argument list, read by the argument loop up to the `)`
      at `m`. */
  lemma CallWithArguments(ts: seq<S.Token>, f: string, args: seq<Node>, m: nat, q: nat)
    requires 2 < m < |ts| && ts[0] == S.Token(S.Identifier, f) && ts[1] == S.Token(S.LeftParen, "(")
    requires !Check(ts, 2, S.RightParen) && ArgumentLoop(ts, [], 2) == Parsed([] + args, m)
    requires ts[m] == S.Token(S.RightParen, ")") && q == m + 1
    ensures ParseCall(ts, 0) == Parsed(CallStatement(f, args), q)
  {
    assert [] + args == args;
  }

  /** A trailing comma is refused: `CALL f(a,)` stops at `)` wanting a
      factor. */
  lemma TrailingCommaFails()
    ensures ParseCall([S.Token(S.Identifier, "f"), S.Token(S.LeftParen, "("), S.Token(S.Identifier, "a"),
                       Comma, S.Token(S.RightParen, ")")], 0)
            == Failed(Error(ExpectedFactor, 4))
  {
    var ts := [S.Token(S.Identifier, "f"), S.Token(S.LeftParen, "("), S.Token(S.Identifier, "a"),
               Comma, S.Token(S.RightParen, ")")];
    assert ParseExpression(ts, 2) == Parsed(Identifier("a"), 3) by {
      assert At(ts, 2, WriteExpression(Identifier("a")));
      ExpressionAt(Identifier("a"), ts, 2);
    }
    assert ParseExpression(ts, 4) == Failed(Error(ExpectedFactor, 4)) by {
      assert ParseFactor(ts, 4) == Failed(Error(ExpectedFactor, 4));
      assert ParseTerm(ts, 4) == Failed(Error(ExpectedFactor, 4));
    }
    ArgumentStep(ts, [], 2, Identifier("a"), 3);
  }
}
