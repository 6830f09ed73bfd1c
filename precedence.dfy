/** Precedence and associativity of the phase-2 expression grammar,
    stated as a round trip: writing an arithmetic tree out as tokens, with
    parentheses exactly where the grammar needs them, and parsing the
    tokens back gives the same tree.  Since the writer puts `*` and `/`
    operands under `+` and `-` without parentheses and chains each level
    to the left, the round trip says that `*` and `/` bind tighter than
    `+` and `-` and that both levels associate to the left. */
module Precedence {
  import opened Options
  import S = Scanning
  import opened AstNodes
  import opened Grammar

  /** Trees built from numbers, identifiers and the four arithmetic
      operators. */
  predicate Arith(e: Node) {
    || (e.BinaryOperation? && (IsAdditiveOp(e.operator) || IsMultiplicativeOp(e.operator)) && Arith(e.left) && Arith(e.right))
    || e.Number?
    || e.Identifier?
  }

  predicate IsAdditive(e: Node) {
    e.BinaryOperation? && IsAdditiveOp(e.operator)
  }

  predicate IsMultiplicative(e: Node) {
    e.BinaryOperation? && IsMultiplicativeOp(e.operator)
  }

  // Ranks ordering the three writers (and the lemmas about them) on one
  // and the same tree: a factor that needs parentheses is written as an
  // expression, an expression that is no sum as a term, a term that is no
  // product as a factor.
  function ExpressionRank(e: Node): nat {
    if IsAdditive(e) then 0 else if IsMultiplicative(e) then 1 else 2
  }

  function TermRank(e: Node): nat {
    if IsAdditive(e) then 2 else if IsMultiplicative(e) then 0 else 1
  }

  function FactorRank(e: Node): nat {
    if IsAdditive(e) then 1 else if IsMultiplicative(e) then 2 else 0
  }

  function OperatorToken(op: string): S.Token {
    S.Token(S.Operator, op)
  }

  /** The token a leaf is read from. */
  function LeafToken(e: Node): S.Token
    requires e.Number? || e.Identifier?
  {
    if e.Number? then S.Token(S.Number, e.value) else S.Token(S.Identifier, e.name)
  }

  /** An expression: a left-nested chain of terms under `+` and `-`. */
  function WriteExpression(e: Node): seq<S.Token>
    requires Arith(e)
    decreases e, ExpressionRank(e)
  {
    if IsAdditive(e) then WriteExpression(e.left) + [OperatorToken(e.operator)] + WriteTerm(e.right)
    else WriteTerm(e)
  }

  /** A term: a left-nested chain of factors under `*` and `/`. */
  function WriteTerm(e: Node): seq<S.Token>
    requires Arith(e)
    decreases e, TermRank(e)
  {
    if IsMultiplicative(e) then WriteTerm(e.left) + [OperatorToken(e.operator)] + WriteFactor(e.right)
    else WriteFactor(e)
  }

  /** A factor: a leaf, or any operation in parentheses. */
  function WriteFactor(e: Node): seq<S.Token>
    requires Arith(e)
    decreases e, FactorRank(e)
  {
    if e.BinaryOperation? then [S.Token(S.LeftParen, "(")] + WriteExpression(e) + [S.Token(S.RightParen, ")")]
    else [LeafToken(e)]
  }

  /** `u` occurs in `ts` at position `p`. */
  predicate At(ts: seq<S.Token>, p: nat, u: seq<S.Token>) {
    p + |u| <= |ts| && forall i | 0 <= i < |u| :: ts[p + i] == u[i]
  }

  lemma AtSplit(ts: seq<S.Token>, p: nat, a: seq<S.Token>, b: seq<S.Token>)
    requires At(ts, p, a + b)
    ensures At(ts, p, a) && At(ts, p + |a|, b)
  {
    forall i | 0 <= i < |a| ensures ts[p + i] == a[i] {
      assert (a + b)[i] == a[i];
    }
    forall i | 0 <= i < |b| ensures ts[p + |a| + i] == b[i] {
      assert (a + b)[|a| + i] == b[i];
    }
  }

  /** The first token of `u`, where `u` occurs. */
  lemma AtFirst(ts: seq<S.Token>, p: nat, u: seq<S.Token>)
    requires At(ts, p, u) && |u| > 0
    ensures p < |ts| && ts[p] == u[0]
  {
    assert ts[p + 0] == u[0];
  }

  lemma {:induction false} FactorRoundTrip(e: Node, ts: seq<S.Token>, p: nat)
    requires Arith(e) && At(ts, p, WriteFactor(e))
    ensures ParseFactor(ts, p) == Parsed(e, p + |WriteFactor(e)|)
    decreases e, FactorRank(e)
  {
    if e.BinaryOperation? {
      var inner := WriteExpression(e);
      AtSplit(ts, p, [S.Token(S.LeftParen, "(")] + inner, [S.Token(S.RightParen, ")")]);
      AtSplit(ts, p, [S.Token(S.LeftParen, "(")], inner);
      AtFirst(ts, p, [S.Token(S.LeftParen, "(")]);
      var close := p + 1 + |inner|;
      AtFirst(ts, close, [S.Token(S.RightParen, ")")]);
      ExpressionPrefix(e, ts, p + 1);
    } else {
      AtFirst(ts, p, [LeafToken(e)]);
    }
  }

  /** One round of the term loop over `op right`. */
  lemma TermStep(ts: seq<S.Token>, left: Node, p: nat, right: Node, q: nat)
    requires p < |ts| && MultiplicativeAt(ts, p)
    requires ParseFactor(ts, p + 1) == Parsed(right, q)
    ensures TermLoop(ts, left, p) == TermLoop(ts, BinaryOperation(left, ts[p].lexeme, right), q)
  {
  }

  lemma AdditiveIsNotMultiplicative(op: string)
    requires IsAdditiveOp(op)
    ensures !IsMultiplicativeOp(op)
  {
  }

  /** The term loop ends before a token other than `*` or `/`. */
  lemma TermLoopStops(ts: seq<S.Token>, left: Node, p: nat)
    requires p <= |ts| && !MultiplicativeAt(ts, p)
    ensures TermLoop(ts, left, p) == Parsed(left, p)
  {
  }

  /** Where the parts of `left op right`, written out, lie in `ts`. */
  lemma AtOperation(ts: seq<S.Token>, p: nat, ul: seq<S.Token>, op: string, ur: seq<S.Token>)
    requires At(ts, p, ul + [OperatorToken(op)] + ur)
    ensures At(ts, p, ul) && p + |ul| < |ts| && ts[p + |ul|] == OperatorToken(op)
    ensures At(ts, p + |ul| + 1, ur)
  {
    AtSplit(ts, p, ul + [OperatorToken(op)], ur);
    AtSplit(ts, p, ul, [OperatorToken(op)]);
    AtFirst(ts, p + |ul|, [OperatorToken(op)]);
  }

  /** Where the parts of a written product lie in `ts`. */
  lemma TermParts(e: Node, ts: seq<S.Token>, p: nat)
    requires Arith(e) && IsMultiplicative(e) && At(ts, p, WriteTerm(e))
    ensures Arith(e.left) && Arith(e.right)
    ensures At(ts, p, WriteTerm(e.left)) && At(ts, p + |WriteTerm(e.left)| + 1, WriteFactor(e.right))
    ensures p + |WriteTerm(e.left)| < |ts|
    ensures MultiplicativeAt(ts, p + |WriteTerm(e.left)|) && ts[p + |WriteTerm(e.left)|].lexeme == e.operator
    ensures p + |WriteTerm(e)| == p + |WriteTerm(e.left)| + 1 + |WriteFactor(e.right)|
  {
    AtOperation(ts, p, WriteTerm(e.left), e.operator, WriteFactor(e.right));
  }

  /** After `e.left` has been read up to the operator at `o`, reading the
      factor `e.right` completes the product `e` at `q`. */
  lemma TermJoin(ts: seq<S.Token>, p: nat, e: Node, o: nat, q: nat)
    requires IsMultiplicative(e) && Arith(e.right) && p <= o < |ts|
    requires MultiplicativeAt(ts, o) && ts[o].lexeme == e.operator
    requires ParseTerm(ts, p) == TermLoop(ts, e.left, o)
    requires ParseFactor(ts, o + 1) == Parsed(e.right, o + 1 + |WriteFactor(e.right)|)
    requires q == o + 1 + |WriteFactor(e.right)|
    ensures q <= |ts| && ParseTerm(ts, p) == TermLoop(ts, e, q)
  {
    TermStep(ts, e.left, o, e.right, q);
    assert BinaryOperation(e.left, ts[o].lexeme, e.right) == e;
  }

  /** Parsing a written term reads all of it and leaves the term loop with
      the whole tree as its left operand. */
  lemma {:induction false} TermPrefix(e: Node, ts: seq<S.Token>, p: nat)
    requires Arith(e) && At(ts, p, WriteTerm(e))
    ensures ParseTerm(ts, p) == TermLoop(ts, e, p + |WriteTerm(e)|)
    decreases e, TermRank(e)
  {
    if IsMultiplicative(e) {
      TermParts(e, ts, p);
      var o := p + |WriteTerm(e.left)|;
      TermPrefix(e.left, ts, p);
      FactorRoundTrip(e.right, ts, o + 1);
      TermJoin(ts, p, e, o, p + |WriteTerm(e)|);
    } else {
      FactorRoundTrip(e, ts, p);
    }
  }

  /** Where the parts of a written sum lie in `ts`. */
  lemma ExpressionParts(e: Node, ts: seq<S.Token>, p: nat)
    requires Arith(e) && IsAdditive(e) && At(ts, p, WriteExpression(e))
    ensures Arith(e.left) && Arith(e.right)
    ensures At(ts, p, WriteExpression(e.left)) && At(ts, p + |WriteExpression(e.left)| + 1, WriteTerm(e.right))
    ensures p + |WriteExpression(e.left)| < |ts| && !MultiplicativeAt(ts, p + |WriteExpression(e.left)|)
    ensures ts[p + |WriteExpression(e.left)|] == OperatorToken(e.operator)
    ensures p + |WriteExpression(e)| == p + |WriteExpression(e.left)| + 1 + |WriteTerm(e.right)|
  {
    AtOperation(ts, p, WriteExpression(e.left), e.operator, WriteTerm(e.right));
    AdditiveIsNotMultiplicative(e.operator);
  }

  /** One round of the expression loop: after `e.left` has been read up
      to the operator at `o`, reading the term `e.right` completes the sum
      `e` at `q`, where the term loop stops. */
  lemma ExpressionJoin(ts: seq<S.Token>, p: nat, e: Node, o: nat, q: nat)
    requires IsAdditive(e) && Arith(e.right) && p <= o < |ts| && ts[o] == OperatorToken(e.operator)
    requires q == o + 1 + |WriteTerm(e.right)| && q <= |ts| && !MultiplicativeAt(ts, q)
    requires ParseExpression(ts, p) == ExpressionLoop(ts, e.left, o)
    requires ParseTerm(ts, o + 1) == TermLoop(ts, e.right, o + 1 + |WriteTerm(e.right)|)
    ensures ParseExpression(ts, p) == ExpressionLoop(ts, e, q)
  {
    TermLoopStops(ts, e.right, q);
    assert BinaryOperation(e.left, ts[o].lexeme, e.right) == e;
  }

  /** Parsing a written expression reads all of it and leaves the
      expression loop with the whole tree as its left operand, provided
      the next token does not continue the last term. */
  lemma {:induction false} ExpressionPrefix(e: Node, ts: seq<S.Token>, p: nat)
    requires Arith(e) && At(ts, p, WriteExpression(e))
    requires !MultiplicativeAt(ts, p + |WriteExpression(e)|)
    ensures ParseExpression(ts, p) == ExpressionLoop(ts, e, p + |WriteExpression(e)|)
    decreases e, ExpressionRank(e)
  {
    if IsAdditive(e) {
      ExpressionParts(e, ts, p);
      var o := p + |WriteExpression(e.left)|;
      ExpressionPrefix(e.left, ts, p);
      TermPrefix(e.right, ts, o + 1);
      ExpressionJoin(ts, p, e, o, p + |WriteExpression(e)|);
    } else {
      TermPrefix(e, ts, p);
      TermLoopStops(ts, e, p + |WriteExpression(e)|);
    }
  }

  /** Parsing a written expression at `p`, followed by a token that is no
      arithmetic operator, gives back the tree and stops right after it. */
  lemma ExpressionAt(e: Node, ts: seq<S.Token>, p: nat)
    requires Arith(e) && At(ts, p, WriteExpression(e))
    requires !AdditiveAt(ts, p + |WriteExpression(e)|)
    requires !MultiplicativeAt(ts, p + |WriteExpression(e)|)
    ensures ParseExpression(ts, p) == Parsed(e, p + |WriteExpression(e)|)
  {
    ExpressionPrefix(e, ts, p);
  }

  /** Parsing the written form of any arithmetic tree, followed by any
      token that is not an arithmetic operator, gives back the tree and
      stops right after it. */
  lemma ExpressionRoundTrip(e: Node, rest: seq<S.Token>)
    requires Arith(e)
    requires !AdditiveAt(rest, 0) && !MultiplicativeAt(rest, 0)
    ensures ParseExpression(WriteExpression(e) + rest, 0) == Parsed(e, |WriteExpression(e)|)
  {
    var u := WriteExpression(e);
    var ts := u + rest;
    assert ts[0..|u|] == u;
    if |u| < |ts| {
      assert ts[|u|] == rest[0];
    }
    ExpressionAt(e, ts, 0);
  }

  /** Every written expression, term and factor is non-empty and starts
      with a number, an identifier or `(`. */
  predicate StartsFactor(u: seq<S.Token>) {
    |u| > 0 && (u[0].kind == S.Number || u[0].kind == S.Identifier || u[0].kind == S.LeftParen)
  }

  lemma {:induction false} ExpressionStartsFactor(e: Node)
    requires Arith(e)
    ensures StartsFactor(WriteExpression(e))
    decreases e, ExpressionRank(e)
  {
    if IsAdditive(e) {
      ExpressionStartsFactor(e.left);
      assert WriteExpression(e)[0] == WriteExpression(e.left)[0];
    } else {
      TermStartsFactor(e);
    }
  }

  lemma {:induction false} TermStartsFactor(e: Node)
    requires Arith(e)
    ensures StartsFactor(WriteTerm(e))
    decreases e, TermRank(e)
  {
    if IsMultiplicative(e) {
      TermStartsFactor(e.left);
      assert WriteTerm(e)[0] == WriteTerm(e.left)[0];
    }
  }

  /** `2 + 3 * 4` is `2 + (3 * 4)`. */
  lemma ProductBindsTighter()
    ensures ParseExpression([S.Token(S.Number, "2"), OperatorToken("+"), S.Token(S.Number, "3"),
                             OperatorToken("*"), S.Token(S.Number, "4")], 0)
            == Parsed(BinaryOperation(Number("2"), "+", BinaryOperation(Number("3"), "*", Number("4"))), 5)
  {
    var e := BinaryOperation(Number("2"), "+", BinaryOperation(Number("3"), "*", Number("4")));
    ExpressionRoundTrip(e, []);
    assert WriteExpression(e) + [] == [S.Token(S.Number, "2"), OperatorToken("+"), S.Token(S.Number, "3"),
                                       OperatorToken("*"), S.Token(S.Number, "4")];
  }

  /** `1 - 2 - 3` is `(1 - 2) - 3`. */
  lemma DifferenceAssociatesLeft()
    ensures ParseExpression([S.Token(S.Number, "1"), OperatorToken("-"), S.Token(S.Number, "2"),
                             OperatorToken("-"), S.Token(S.Number, "3")], 0)
            == Parsed(BinaryOperation(BinaryOperation(Number("1"), "-", Number("2")), "-", Number("3")), 5)
  {
    var e := BinaryOperation(BinaryOperation(Number("1"), "-", Number("2")), "-", Number("3"));
    ExpressionRoundTrip(e, []);
    assert WriteExpression(e) + [] == [S.Token(S.Number, "1"), OperatorToken("-"), S.Token(S.Number, "2"),
                                       OperatorToken("-"), S.Token(S.Number, "3")];
  }
}
