/** The phase-1 lexer (class `Lexer` of Compiler_Project_phase1.py): a
    single cursor over the source text with one character of lookahead,
    appending `(kind, lexeme)` tokens to `tokens` and inserting identifiers
    into `symbolTable`.

    Every method is proved to compute the corresponding function of module
    Scanning (or Annotation for the symbol-table pass), so the properties
    proved there hold of the class.  A raised exception is an `Err` (or a
    `Crash`) result; the fields keep the values they had when it was
    raised. */
module Lexing {
  import opened Options
  import opened Scanning
  import opened Annotation

  class Lexer {
    const source: string
    var currentChar: Option<char>
    var position: int
    var currentLine: int
    var currentColumn: int
    var tokens: seq<Token>
    var symbolTable: Table

    /** Line and column are those reached after reading the characters up
        to and including `position`. */
    predicate Tracking()
      reads this
    {
      -1 <= position
      && currentLine == LineAt(source, Consumed(source, position))
      && currentColumn == ColumnAt(source, Consumed(source, position))
    }

    /** The cursor invariant: `currentChar` is the character at `position`,
        or None once the whole source has been read. */
    predicate Valid()
      reads this
    {
      Tracking() && 0 <= position <= |source| && currentChar == CharAt(source, position)
    }

    constructor (sourceCode: string)
      ensures Valid()
      ensures source == sourceCode && position == 0
      ensures tokens == [] && symbolTable == map[]
    {
      source := sourceCode;
      currentChar := None;
      position := -1;
      currentLine := 1;
      currentColumn := 0;
      tokens := [];
      symbolTable := map[];
      new;
      Advance();
    }

    /** Moves to the next character; a line feed starts a new line at
        column 0, any other character moves one column right, and past the
        end the current character becomes None. */
    method Advance()
      requires Tracking() && position < |source|
      modifies this`position, this`currentChar, this`currentLine, this`currentColumn
      ensures Valid()
      ensures position == old(position) + 1
      ensures position < |source| ==>
                currentLine == old(currentLine) + (if source[position] == '\n' then 1 else 0)
                && currentColumn == (if source[position] == '\n' then 0 else old(currentColumn) + 1)
      ensures position == |source| ==>
                currentChar == None && currentLine == old(currentLine) && currentColumn == old(currentColumn)
    {
      position := position + 1;
      if position < |source| {
        currentChar := Some(source[position]);
        if source[position] == '\n' {
          currentLine := currentLine + 1;
          currentColumn := 0;
        } else {
          currentColumn := currentColumn + 1;
        }
      } else {
        currentChar := None;
      }
    }

    /** The character after the current one, None past the end. */
    function Peek(): (c: Option<char>)
      requires Valid()
      reads this
      ensures c.Some? <==> position + 1 < |source|
      ensures c.Some? ==> c.value == source[position + 1]
    {
      if position + 1 < |source| then Some(source[position + 1]) else None
    }

    /** Skips the maximal run of whitespace at the cursor. */
    method SkipWhitespace()
      requires Valid()
      modifies this`position, this`currentChar, this`currentLine, this`currentColumn
      ensures Valid()
      ensures position == SpaceEnd(source, old(position))
    {
      while currentChar.Some? && IsSpace(currentChar.value)
        invariant Valid() && old(position) <= position
        invariant SpaceEnd(source, old(position)) == SpaceEnd(source, position)
        decreases |source| - position
      {
        Advance();
      }
    }

    /** Skips a comment whose `{` is the current character, up to and
        including the first `}`; without one the whole input is read and
        "Unclosed comment" is raised there. */
    method SkipComment() returns (err: Option<LexError>)
      requires Valid() && position < |source|
      modifies this`position, this`currentChar, this`currentLine, this`currentColumn
      ensures Valid()
      ensures CommentEnd(source, old(position) + 1).Some? ==>
                err == None && position == CommentEnd(source, old(position) + 1).value
      ensures CommentEnd(source, old(position) + 1).None? ==>
                err == Some(ErrorAfter(source, |source|, UnclosedComment)) && position == |source|
    {
      Advance();
      while currentChar.Some?
        invariant Valid() && old(position) < position
        invariant CommentEnd(source, old(position) + 1) == CommentEnd(source, position)
        decreases |source| - position
      {
        if currentChar.value == '}' {
          Advance();
          return None;
        }
        Advance();
      }
      err := Some(LexError(UnclosedComment, currentLine, currentColumn));
    }

    /** Reads the maximal run of letters, digits and `_` and classifies it;
        an identifier is also inserted into the symbol table if absent. */
    method IdentifyKeywordOrIdentifier() returns (t: Token)
      requires Valid()
      modifies this`position, this`currentChar, this`currentLine, this`currentColumn, this`symbolTable
      ensures Valid()
      ensures position == WordEnd(source, old(position))
      ensures t == ClassifyWord(source[old(position)..position])
      ensures symbolTable == if t.kind == Identifier then AddSymbol(old(symbolTable), t.lexeme) else old(symbolTable)
    {
      var result := "";
      while currentChar.Some? && IsWordChar(currentChar.value)
        invariant Valid() && old(position) <= position
        invariant result == source[old(position)..position]
        invariant WordEnd(source, old(position)) == WordEnd(source, position)
        invariant symbolTable == old(symbolTable)
        decreases |source| - position
      {
        SliceSnoc(source, old(position), position);
        result := result + [currentChar.value];
        Advance();
      }
      var upperResult := Upper(result);
      var keyword := KeywordNamed(upperResult);
      if keyword.Some? {
        t := Token(Kw(keyword.value), result);
      } else if upperResult == "AND" {
        t := Token(Operator, "and");
      } else if upperResult == "OR" {
        t := Token(Operator, "or");
      } else if upperResult == "NOT" {
        t := Token(Operator, "not");
      } else {
        AddToSymbolTable(result);
        t := Token(Identifier, result);
      }
    }

    /** Reads the maximal run of digits and points; a second point raises
        "multiple decimal points" with the cursor on that point. */
    method ReadNumber() returns (r: Result<Token, LexError>)
      requires Valid()
      modifies this`position, this`currentChar, this`currentLine, this`currentColumn
      ensures Valid()
      ensures ScanNumber(source, old(position), false).NumberEnd? ==>
                var j := ScanNumber(source, old(position), false).end;
                r == Ok(Token(Number, source[old(position)..j])) && position == j
      ensures ScanNumber(source, old(position), false).SecondPoint? ==>
                var k := ScanNumber(source, old(position), false).at;
                r == Err(ErrorAfter(source, k + 1, MultipleDecimalPoints)) && position == k
    {
      var result := "";
      var hasDecimalPoint := false;
      while currentChar.Some? && IsNumberChar(currentChar.value)
        invariant Valid() && old(position) <= position
        invariant result == source[old(position)..position]
        invariant ScanNumber(source, old(position), false) == ScanNumber(source, position, hasDecimalPoint)
        decreases |source| - position
      {
        ghost var p := position;
        ghost var seen := hasDecimalPoint;
        if currentChar.value == '.' {
          if hasDecimalPoint {
            SecondPointStops(source, p);
            return Err(LexError(MultipleDecimalPoints, currentLine, currentColumn));
          }
          hasDecimalPoint := true;
        }
        NumberContinues(source, p, seen);
        SliceSnoc(source, old(position), p);
        result := result + [currentChar.value];
        Advance();
      }
      assert ScanNumber(source, position, hasDecimalPoint) == NumberEnd(position);
      r := Ok(Token(Number, result));
    }

    /** An arithmetic operator at the cursor, two characters when they form
        a compound operator. */
    method ArithmeticOperator() returns (r: Result<Token, LexError>)
      requires Valid() && position < |source|
      modifies this`position, this`currentChar, this`currentLine, this`currentColumn
      ensures Valid()
      ensures ScanArithmetic(source, old(position)).Emit? ==>
                r == Ok(ScanArithmetic(source, old(position)).token)
                && position == ScanArithmetic(source, old(position)).next
      ensures ScanArithmetic(source, old(position)).Stop? ==>
                r == Err(ScanArithmetic(source, old(position)).error) && position == old(position)
    {
      var c := currentChar.value;
      var nextChar := Peek();
      if nextChar.Some? && [c, nextChar.value] in CompoundOperators {
        assert source[position..position + 2] == [c, nextChar.value];
        Advance();
        Advance();
        r := Ok(Token(CompoundOperator, [c, nextChar.value]));
      } else if IsArithmetic(c) {
        Advance();
        r := Ok(Token(Operator, [c]));
      } else {
        r := Err(LexError(InvalidArithmeticOperator(c), currentLine, currentColumn));
      }
    }

    /** A relational operator at the cursor: `!=`, `=`, `>` or `<`. */
    method RelationalOperator() returns (r: Result<Token, LexError>)
      requires Valid() && position < |source|
      modifies this`position, this`currentChar, this`currentLine, this`currentColumn
      ensures Valid()
      ensures ScanRelational(source, old(position)).Emit? ==>
                r == Ok(ScanRelational(source, old(position)).token)
                && position == ScanRelational(source, old(position)).next
      ensures ScanRelational(source, old(position)).Stop? ==>
                r == Err(ScanRelational(source, old(position)).error) && position == old(position)
    {
      var c := currentChar.value;
      var nextChar := Peek();
      if c == '!' && nextChar == Some('=') {
        Advance();
        Advance();
        r := Ok(Token(NotEqual, "!="));
      } else if c == '=' {
        Advance();
        r := Ok(Token(Equal, "="));
      } else if c == '>' || c == '<' {
        Advance();
        r := Ok(Token(Operator, [c]));
      } else {
        r := Err(LexError(InvalidRelationalOperator(c), currentLine, currentColumn));
      }
    }

    /** The token for the delimiter at the cursor; the cursor does not move. */
    method ReadDelimiter() returns (t: Token)
      requires Valid() && position < |source|
      ensures t.lexeme == [source[position]]
      ensures t.kind == DelimiterKind(source[position])
    {
      var c := currentChar.value;
      t := Token(DelimiterKind(c), [c]);
    }

    /** Inserts an 'unknown' entry for `identifier` unless it has one. */
    method AddToSymbolTable(identifier: string)
      modifies this`symbolTable
      ensures symbolTable == AddSymbol(old(symbolTable), identifier)
    {
      if identifier !in symbolTable {
        symbolTable := symbolTable[identifier := Entry(identifier, Unknown, None)];
      }
    }

    /** One iteration of the `tokenize` loop: skips whitespace or a
        comment, or scans one token and appends it. */
    method TokenizeStep() returns (err: Option<LexError>)
      requires Valid() && position < |source|
      modifies this`position, this`currentChar, this`currentLine, this`currentColumn, this`tokens, this`symbolTable
      ensures Valid()
      ensures StepAt(source, old(position)).Skip? ==>
                err == None && position == StepAt(source, old(position)).next
                && tokens == old(tokens) && symbolTable == old(symbolTable)
      ensures StepAt(source, old(position)).Emit? ==>
                var t := StepAt(source, old(position)).token;
                err == None && position == StepAt(source, old(position)).next
                && tokens == old(tokens) + [t]
                && symbolTable == if t.kind == Identifier then AddSymbol(old(symbolTable), t.lexeme) else old(symbolTable)
      ensures StepAt(source, old(position)).Stop? ==>
                err == Some(StepAt(source, old(position)).error)
                && tokens == old(tokens) && symbolTable == old(symbolTable)
    {
      var c := currentChar.value;
      if IsSpace(c) {
        SkipWhitespace();
        err := None;
      } else if c == '{' {
        err := SkipComment();
      } else {
        var t := ScanToken();
        if t.Err? {
          return Some(t.error);
        }
        tokens := tokens + [t.value];
        err := None;
      }
    }

    /** The branches of the loop that scan a word, a number or a symbol. */
    method ScanToken() returns (r: Result<Token, LexError>)
      requires Valid() && position < |source|
      modifies this`position, this`currentChar, this`currentLine, this`currentColumn, this`symbolTable
      ensures Valid()
      ensures TokenStep(source, old(position)).Emit? ==>
                var t := TokenStep(source, old(position)).token;
                r == Ok(t) && position == TokenStep(source, old(position)).next
                && symbolTable == if t.kind == Identifier then AddSymbol(old(symbolTable), t.lexeme) else old(symbolTable)
      ensures TokenStep(source, old(position)).Stop? ==>
                r == Err(TokenStep(source, old(position)).error) && symbolTable == old(symbolTable)
    {
      var c := currentChar.value;
      if IsWordStart(c) {
        var t := IdentifyKeywordOrIdentifier();
        r := Ok(t);
      } else if IsDigit(c) {
        r := ReadNumber();
      } else {
        r := ScanSymbol();
        assert r.Ok? ==> r.value.kind != Identifier;
      }
    }

    /** The branches of the loop that scan an operator or a punctuation
        character, or raise "Unexpected character". */
    method ScanSymbol() returns (r: Result<Token, LexError>)
      requires Valid() && position < |source|
      modifies this`position, this`currentChar, this`currentLine, this`currentColumn
      ensures Valid()
      ensures SymbolStep(source, old(position)).Emit? ==>
                r == Ok(SymbolStep(source, old(position)).token) && position == SymbolStep(source, old(position)).next
      ensures SymbolStep(source, old(position)).Stop? ==>
                r == Err(SymbolStep(source, old(position)).error)
    {
      var c := currentChar.value;
      if IsArithmetic(c) {
        r := ArithmeticOperator();
      } else if IsRelationalStart(c) {
        r := RelationalOperator();
      } else if c == ',' {
        Advance();
        r := Ok(Token(Comma, ","));
      } else if c == ':' {
        Advance();
        r := Ok(Token(Colon, ":"));
      } else if IsDelimiter(c) {
        var t := ReadDelimiter();
        Advance();
        r := Ok(t);
      } else {
        r := Err(LexError(UnexpectedCharacter(c), currentLine, currentColumn));
      }
    }

    /** Scans the rest of the source, appending tokens and recording
        identifiers; on an error the tokens appended so far stay. */
    method Tokenize() returns (r: Result<seq<Token>, LexError>)
      requires Valid()
      modifies this`position, this`currentChar, this`currentLine, this`currentColumn, this`tokens, this`symbolTable
      ensures Valid()
      ensures tokens == old(tokens) + LexFrom(source, old(position)).tokens
      ensures symbolTable == Recorded(old(symbolTable), LexFrom(source, old(position)).tokens)
      ensures LexFrom(source, old(position)).error.None? ==> r == Ok(tokens) && position == |source|
      ensures LexFrom(source, old(position)).error.Some? ==> r == Err(LexFrom(source, old(position)).error.value)
    {
      ghost var start := position;
      ghost var tokens0 := tokens;
      ghost var table0 := symbolTable;
      while currentChar.Some?
        invariant Valid() && start <= position
        invariant |tokens0| <= |tokens| && tokens[..|tokens0|] == tokens0
        invariant LexFrom(source, start) == Prepend(tokens[|tokens0|..], LexFrom(source, position))
        invariant symbolTable == Recorded(table0, tokens[|tokens0|..])
        decreases |source| - position
      {
        ghost var p := position;
        ghost var added := tokens[|tokens0|..];
        LexFromStep(source, p);
        var err := TokenizeStep();
        if err.Some? {
          return Err(err.value);
        }
        if StepAt(source, p).Emit? {
          var t := StepAt(source, p).token;
          RecordedSnoc(table0, added, t);
          PrependPrepend(added, [t], LexFrom(source, position));
          assert tokens[|tokens0|..] == added + [t];
        }
      }
      r := Ok(tokens);
    }

    /** The symbol-table pass over the token list. */
    method UpdateSymbolTableTypes() returns (crash: Option<Crash>)
      modifies this`symbolTable
      ensures AnnotateFrom(tokens, 0, old(symbolTable)).Done? ==>
                crash == None && symbolTable == AnnotateFrom(tokens, 0, old(symbolTable)).table
      ensures AnnotateFrom(tokens, 0, old(symbolTable)).Crashed? ==>
                crash == Some(AnnotateFrom(tokens, 0, old(symbolTable)).crash)
                && symbolTable == AnnotateFrom(tokens, 0, old(symbolTable)).table
    {
      var index := 0;
      while index < |tokens|
        invariant 0 <= index <= |tokens|
        invariant AnnotateFrom(tokens, 0, old(symbolTable)) == AnnotateFrom(tokens, index, symbolTable)
      {
        var kind := tokens[index].kind;
        if kind == Kw(Let) {
          crash := RefineLet(index);
        } else if kind == Kw(Func) {
          crash := RefineFunc(index);
        } else if kind == Kw(Call) {
          crash := RefineCall(index);
        } else {
          crash := None;
        }
        if crash.Some? {
          return;
        }
        index := index + 1;
      }
      crash := None;
    }

    /** The `let` branch of the pass at `index`. */
    method RefineLet(index: nat) returns (crash: Option<Crash>)
      requires index < |tokens|
      modifies this`symbolTable
      ensures AnnotateLet(tokens, index, old(symbolTable)).Done? ==>
                crash == None && symbolTable == AnnotateLet(tokens, index, old(symbolTable)).table
      ensures AnnotateLet(tokens, index, old(symbolTable)).Crashed? ==>
                crash == Some(AnnotateLet(tokens, index, old(symbolTable)).crash)
                && symbolTable == AnnotateLet(tokens, index, old(symbolTable)).table
    {
      if index + 1 >= |tokens| {
        return Some(IndexError(index + 1));
      }
      var next := tokens[index + 1];
      if next.kind == Identifier {
        if next.lexeme !in symbolTable {
          return Some(KeyError(next.lexeme));
        }
        symbolTable := symbolTable[next.lexeme := symbolTable[next.lexeme].(typ := Integer)];
      }
      crash := None;
    }

    /** The `func` branch of the pass at `index`, with its parameter loop. */
    method RefineFunc(index: nat) returns (crash: Option<Crash>)
      requires index < |tokens|
      modifies this`symbolTable
      ensures AnnotateFunc(tokens, index, old(symbolTable)).Done? ==>
                crash == None && symbolTable == AnnotateFunc(tokens, index, old(symbolTable)).table
      ensures AnnotateFunc(tokens, index, old(symbolTable)).Crashed? ==>
                crash == Some(AnnotateFunc(tokens, index, old(symbolTable)).crash)
                && symbolTable == AnnotateFunc(tokens, index, old(symbolTable)).table
    {
      if index + 1 >= |tokens| {
        return Some(IndexError(index + 1));
      }
      var next := tokens[index + 1];
      if next.kind == Identifier {
        var functionName := next.lexeme;
        if functionName !in symbolTable {
          return Some(KeyError(functionName));
        }
        symbolTable := symbolTable[functionName := symbolTable[functionName].(typ := Function)];
        if index + 2 >= |tokens| {
          return Some(IndexError(index + 2));
        }
        if tokens[index + 2].kind == LeftParen {
          var params, paramIndex := IdentifiersUntilCloseParen(index + 3);
          if paramIndex == |tokens| {
            return Some(IndexError(paramIndex));
          }
          symbolTable := symbolTable[functionName := symbolTable[functionName].(parameters := Some(params))];
        }
      }
      crash := None;
    }

    /** The `call` branch of the pass at `index`, with its argument loop. */
    method RefineCall(index: nat) returns (crash: Option<Crash>)
      requires index < |tokens|
      modifies this`symbolTable
      ensures AnnotateCall(tokens, index, old(symbolTable)).Done? ==>
                crash == None && symbolTable == AnnotateCall(tokens, index, old(symbolTable)).table
      ensures AnnotateCall(tokens, index, old(symbolTable)).Crashed? ==>
                crash == Some(AnnotateCall(tokens, index, old(symbolTable)).crash)
                && symbolTable == AnnotateCall(tokens, index, old(symbolTable)).table
    {
      if index + 1 >= |tokens| {
        return Some(IndexError(index + 1));
      }
      var next := tokens[index + 1];
      if next.kind == Identifier {
        var functionName := next.lexeme;
        ghost var entry := if functionName in symbolTable then symbolTable[functionName]
                           else Entry(functionName, Unknown, None);
        ghost var named := symbolTable[functionName := entry.(typ := Function)];
        if functionName !in symbolTable {
          symbolTable := symbolTable[functionName := Entry(functionName, Unknown, None)];
        }
        symbolTable := symbolTable[functionName := symbolTable[functionName].(typ := Function)];
        assert symbolTable == named;
        if index + 2 < |tokens| && tokens[index + 2].kind == LeftParen {
          var args, _ := IdentifiersUntilCloseParen(index + 3);
          symbolTable := symbolTable[functionName := symbolTable[functionName].(parameters := Some(args))];
        }
      }
      crash := None;
    }

    /** The parameter and argument loops of the pass: the identifier
        lexemes from `start` up to the next 'right_paren', and the index
        where the loop stopped (`|tokens|` when there is none). */
    method IdentifiersUntilCloseParen(start: nat) returns (names: seq<string>, stop: nat)
      requires start <= |tokens|
      ensures stop == NextCloseParen(tokens, start)
      ensures names == IdentLexemes(tokens[start..stop])
    {
      names := [];
      stop := start;
      while stop < |tokens| && tokens[stop].kind != RightParen
        invariant start <= stop <= |tokens|
        invariant names == IdentLexemes(tokens[start..stop])
        invariant NextCloseParen(tokens, start) == NextCloseParen(tokens, stop)
      {
        if tokens[stop].kind == Identifier {
          names := names + [tokens[stop].lexeme];
        }
        assert tokens[start..stop + 1][..stop - start] == tokens[start..stop];
        stop := stop + 1;
      }
    }
  }
}
