/** Specification of the phase-1 scanner (class `Lexer` of
    Compiler_Project_phase1.py) as functions over the source text.

    A scanning position `i` is the index of the lexer's current character;
    each branch of `tokenize` is one `Step` from `i`, and `LexFrom` strings
    the steps together into the token list the lexer appends.  The class in
    lexer.dfy is proved to compute exactly these functions. */
module Scanning {
  import opened Options

  // ------------------------------------------------------------------
  // Character classes (the ASCII part of Python's str predicates)
  // ------------------------------------------------------------------

  /** `str.isspace` on ASCII: tab, line feed, vertical tab, form feed,
      carriage return, the four information separators and space. */
  predicate IsSpace(c: char) {
    9 <= c as int <= 13 || 28 <= c as int <= 32
  }

  predicate IsAlpha(c: char) {
    'a' <= c <= 'z' || 'A' <= c <= 'Z'
  }

  predicate IsDigit(c: char) {
    '0' <= c <= '9'
  }

  /** A character that may start an identifier or keyword. */
  predicate IsWordStart(c: char) {
    IsAlpha(c) || c == '_'
  }

  /** A character that may continue an identifier or keyword. */
  predicate IsWordChar(c: char) {
    IsAlpha(c) || IsDigit(c) || c == '_'
  }

  predicate IsNumberChar(c: char) {
    IsDigit(c) || c == '.'
  }

  predicate IsArithmetic(c: char) {
    c == '+' || c == '-' || c == '*' || c == '/'
  }

  predicate IsRelationalStart(c: char) {
    c == '!' || c == '=' || c == '>' || c == '<'
  }

  predicate IsDelimiter(c: char) {
    c in "()[]{},:"
  }

  function UpperChar(c: char): char {
    if 'a' <= c <= 'z' then (c as int - 32) as char else c
  }

  function Upper(s: string): (u: string)
    ensures |u| == |s|
    ensures forall i | 0 <= i < |s| :: u[i] == UpperChar(s[i])
  {
    seq(|s|, i requires 0 <= i < |s| => UpperChar(s[i]))
  }

  // ------------------------------------------------------------------
  // Tokens
  // ------------------------------------------------------------------

  datatype Keyword =
    | Let | If | Then | Else | Endif | While | Do | Endwhile | For | To | Step
    | Endfor | Func | Begin | Return | End | Call | In | Range | Repeat | Until

  /** The upper-case spelling under which each keyword is listed. */
  function Spelling(k: Keyword): string {
    match k
    case Let => "LET"
    case If => "IF"
    case Then => "THEN"
    case Else => "ELSE"
    case Endif => "ENDIF"
    case While => "WHILE"
    case Do => "DO"
    case Endwhile => "ENDWHILE"
    case For => "FOR"
    case To => "TO"
    case Step => "STEP"
    case Endfor => "ENDFOR"
    case Func => "FUNC"
    case Begin => "BEGIN"
    case Return => "RETURN"
    case End => "END"
    case Call => "CALL"
    case In => "IN"
    case Range => "RANGE"
    case Repeat => "REPEAT"
    case Until => "UNTIL"
  }

  /** Membership test of an upper-cased word in the keyword list. */
  function KeywordNamed(u: string): (r: Option<Keyword>)
    ensures r.Some? ==> Spelling(r.value) == u
    ensures r.None? ==> forall k: Keyword :: Spelling(k) != u
  {
    if u == "LET" then Some(Let)
    else if u == "IF" then Some(If)
    else if u == "THEN" then Some(Then)
    else if u == "ELSE" then Some(Else)
    else if u == "ENDIF" then Some(Endif)
    else if u == "WHILE" then Some(While)
    else if u == "DO" then Some(Do)
    else if u == "ENDWHILE" then Some(Endwhile)
    else if u == "FOR" then Some(For)
    else if u == "TO" then Some(To)
    else if u == "STEP" then Some(Step)
    else if u == "ENDFOR" then Some(Endfor)
    else if u == "FUNC" then Some(Func)
    else if u == "BEGIN" then Some(Begin)
    else if u == "RETURN" then Some(Return)
    else if u == "END" then Some(End)
    else if u == "CALL" then Some(Call)
    else if u == "IN" then Some(In)
    else if u == "RANGE" then Some(Range)
    else if u == "REPEAT" then Some(Repeat)
    else if u == "UNTIL" then Some(Until)
    else None
  }

  /** The token kinds the lexer emits: `Kw(k)` is the lower-case keyword
      kind ('let', 'if', ...), the others are the remaining kind strings. */
  datatype Kind =
    | Kw(keyword: Keyword)
    | Identifier | Number | Operator | CompoundOperator | Equal | NotEqual
    | Comma | Colon | LeftParen | RightParen | LeftBracket | RightBracket
    | LeftBrace | RightBrace | Delimiter

  /** A `(kind, lexeme)` tuple. */
  datatype Token = Token(kind: Kind, lexeme: string)

  predicate IsLogical(u: string) {
    u == "AND" || u == "OR" || u == "NOT"
  }

  /** Classification of a scanned word: a keyword (case-insensitive) keeps
      its raw lexeme, AND/OR/NOT become lower-case operators, anything else
      is an identifier. */
  function ClassifyWord(w: string): (t: Token)
    ensures t.kind.Kw? <==> exists k: Keyword :: Spelling(k) == Upper(w)
    ensures t.kind.Kw? ==> Spelling(t.kind.keyword) == Upper(w) && t.lexeme == w
    ensures t.kind == Operator <==> !t.kind.Kw? && IsLogical(Upper(w))
    ensures t.kind == Operator ==> t.lexeme in ["and", "or", "not"] && Upper(t.lexeme) == Upper(w)
    ensures t.kind == Identifier <==> !t.kind.Kw? && !IsLogical(Upper(w))
    ensures t.kind == Identifier ==> t.lexeme == w
  {
    var u := Upper(w);
    match KeywordNamed(u)
    case Some(k) => Token(Kw(k), w)
    case None =>
      if u == "AND" then Token(Operator, "and")
      else if u == "OR" then Token(Operator, "or")
      else if u == "NOT" then Token(Operator, "not")
      else Token(Identifier, w)
  }

  /** The kind `delimiter()` assigns to a delimiter character. */
  function DelimiterKind(c: char): Kind {
    if c == '(' then LeftParen
    else if c == ')' then RightParen
    else if c == '[' then LeftBracket
    else if c == ']' then RightBracket
    else if c == '{' then LeftBrace
    else if c == '}' then RightBrace
    else Delimiter
  }

  // ------------------------------------------------------------------
  // Source positions
  // ------------------------------------------------------------------

  /** The current character at position `p`, None past the end. */
  function CharAt(s: string, p: int): Option<char> {
    if 0 <= p < |s| then Some(s[p]) else None
  }

  /** How many characters the lexer has read when its position is `p`. */
  function Consumed(s: string, p: int): nat
    requires -1 <= p
  {
    if p + 1 <= |s| then p + 1 else |s|
  }

  /** Number of line feeds among the first `n` characters. */
  function LineFeeds(s: string, n: nat): nat
    requires n <= |s|
  {
    if n == 0 then 0 else LineFeeds(s, n - 1) + (if s[n - 1] == '\n' then 1 else 0)
  }

  /** Line number after reading `n` characters: one plus the line feeds read. */
  function LineAt(s: string, n: nat): int
    requires n <= |s|
  {
    1 + LineFeeds(s, n)
  }

  /** Column after reading `n` characters: reset to 0 by a line feed,
      moved one right by any other character. */
  function ColumnAt(s: string, n: nat): nat
    requires n <= |s|
  {
    if n == 0 then 0 else if s[n - 1] == '\n' then 0 else ColumnAt(s, n - 1) + 1
  }

  /** The line number counts the line feeds read so far. */
  lemma {:induction false} LineAtCountsLineFeeds(s: string, n: nat)
    requires n <= |s|
    ensures LineAt(s, n) == 1 + multiset(s[..n])['\n']
  {
    if n > 0 {
      LineAtCountsLineFeeds(s, n - 1);
      assert s[..n] == s[..n - 1] + [s[n - 1]];
    }
  }

  /** The column is the number of characters read since the last line
      feed (or since the start). */
  lemma {:induction false} ColumnAtCountsSinceLineFeed(s: string, n: nat)
    requires n <= |s|
    ensures ColumnAt(s, n) <= n
    ensures ColumnAt(s, n) < n ==> s[n - ColumnAt(s, n) - 1] == '\n'
    ensures forall j | n - ColumnAt(s, n) <= j < n :: s[j] != '\n'
  {
    if n > 0 && s[n - 1] != '\n' {
      ColumnAtCountsSinceLineFeed(s, n - 1);
    }
  }

  // ------------------------------------------------------------------
  // Errors and steps
  // ------------------------------------------------------------------

  datatype LexMessage =
    | UnclosedComment
    | MultipleDecimalPoints
    | InvalidArithmeticOperator(op: char)
    | InvalidRelationalOperator(op: char)
    | UnexpectedCharacter(c: char)

  /** A lexing error with the line and column the lexer held when raising it. */
  datatype LexError = LexError(message: LexMessage, line: int, column: int)

  /** The error raised after `n` characters have been read. */
  function ErrorAfter(s: string, n: nat, m: LexMessage): LexError
    requires n <= |s|
  {
    LexError(m, LineAt(s, n), ColumnAt(s, n))
  }

  /** What one iteration of the `tokenize` loop does. */
  datatype Step = Skip(next: nat) | Emit(token: Token, next: nat) | Stop(error: LexError)

  /** End of the run of whitespace starting at `i`. */
  function SpaceEnd(s: string, i: nat): (j: nat)
    requires i <= |s|
    ensures i <= j <= |s|
    ensures forall k | i <= k < j :: IsSpace(s[k])
    ensures j == |s| || !IsSpace(s[j])
    decreases |s| - i
  {
    if i < |s| && IsSpace(s[i]) then SpaceEnd(s, i + 1) else i
  }

  /** End of the maximal run of letters, digits and `_` starting at `i`. */
  function WordEnd(s: string, i: nat): (j: nat)
    requires i <= |s|
    ensures i <= j <= |s|
    ensures forall k | i <= k < j :: IsWordChar(s[k])
    ensures j == |s| || !IsWordChar(s[j])
    decreases |s| - i
  {
    if i < |s| && IsWordChar(s[i]) then WordEnd(s, i + 1) else i
  }

  /** Index just past the first `}` at or after `i`; None when there is none. */
  function CommentEnd(s: string, i: nat): (r: Option<nat>)
    requires i <= |s|
    ensures r.Some? ==> i < r.value <= |s| && s[r.value - 1] == '}'
    ensures r.Some? ==> forall k | i <= k < r.value - 1 :: s[k] != '}'
    ensures r.None? ==> forall k | i <= k < |s| :: s[k] != '}'
    decreases |s| - i
  {
    if i == |s| then None else if s[i] == '}' then Some(i + 1) else CommentEnd(s, i + 1)
  }

  /** Number of decimal points in `t`. */
  function Points(t: string): nat {
    if t == [] then 0 else (if t[0] == '.' then 1 else 0) + Points(t[1..])
  }

  /** Where the digit-and-point loop stops: past the literal, or on the
      second decimal point. */
  datatype NumberScan = NumberEnd(end: nat) | SecondPoint(at: nat) {
    function StopIndex(): nat {
      if NumberEnd? then end else at
    }
  }

  /** The digit-and-point loop of `number()`, `seenPoint` being the flag. */
  function ScanNumber(s: string, i: nat, seenPoint: bool): (r: NumberScan)
    requires i <= |s|
    ensures i <= r.StopIndex() <= |s|
    ensures r.SecondPoint? ==> r.at < |s|
    decreases |s| - i
  {
    if i < |s| && IsNumberChar(s[i]) then
      if s[i] == '.' && seenPoint then SecondPoint(i)
      else ScanNumber(s, i + 1, seenPoint || s[i] == '.')
    else
      NumberEnd(i)
  }

  /** A slice extended by the character right after it. */
  lemma SliceSnoc(s: string, a: nat, b: nat)
    requires a <= b < |s|
    ensures s[a..b] + [s[b]] == s[a..b + 1]
  {
  }

  /** One more character of a number literal. */
  lemma NumberContinues(s: string, i: nat, seenPoint: bool)
    requires i < |s| && IsNumberChar(s[i]) && !(s[i] == '.' && seenPoint)
    ensures ScanNumber(s, i, seenPoint) == ScanNumber(s, i + 1, seenPoint || s[i] == '.')
  {
  }

  /** A point after a point stops the scan. */
  lemma SecondPointStops(s: string, i: nat)
    requires i < |s| && s[i] == '.'
    ensures ScanNumber(s, i, true) == SecondPoint(i)
  {
  }

  /** A number literal is the maximal run of digits and points holding at
      most one point; the scan stops with an error exactly on a second
      point. */
  lemma {:induction false} ScanNumberFormat(s: string, i: nat, seenPoint: bool)
    requires i <= |s|
    ensures forall k | i <= k < ScanNumber(s, i, seenPoint).StopIndex() :: IsNumberChar(s[k])
    ensures ScanNumber(s, i, seenPoint).NumberEnd? ==>
              var j := ScanNumber(s, i, seenPoint).end;
              (j == |s| || !IsNumberChar(s[j])) && Points(s[i..j]) + (if seenPoint then 1 else 0) <= 1
    ensures ScanNumber(s, i, seenPoint).SecondPoint? ==>
              var k := ScanNumber(s, i, seenPoint).at;
              s[k] == '.' && Points(s[i..k]) + (if seenPoint then 1 else 0) == 1
    decreases |s| - i
  {
    if i < |s| && IsNumberChar(s[i]) && !(s[i] == '.' && seenPoint) {
      ScanNumberFormat(s, i + 1, seenPoint || s[i] == '.');
      var e := ScanNumber(s, i + 1, seenPoint || s[i] == '.').StopIndex();
      assert s[i..e][1..] == s[i + 1..e];
    }
  }

  /** A numeric literal starting at digit `s[i]`. */
  function ScanNumberToken(s: string, i: nat): (r: Step)
    requires i < |s|
  {
    match ScanNumber(s, i, false)
    case NumberEnd(j) => Emit(Token(Number, s[i..j]), j)
    case SecondPoint(k) => Stop(ErrorAfter(s, k + 1, MultipleDecimalPoints))
  }

  const CompoundOperators: seq<string> := ["+=", "-=", "*=", "/=", "++", "--"]

  /** `arithmetic_operator()`: a two-character compound operator wins over
      the single character. */
  function ScanArithmetic(s: string, i: nat): (r: Step)
    requires i < |s|
    ensures (r.Emit? && r.token.kind == CompoundOperator)
            <==> i + 1 < |s| && s[i..i + 2] in CompoundOperators
    ensures r.Emit? && r.token.kind == CompoundOperator ==> r.token.lexeme == s[i..i + 2] && r.next == i + 2
    ensures r.Emit? && r.token.kind != CompoundOperator ==>
              r.token == Token(Operator, [s[i]]) && IsArithmetic(s[i]) && r.next == i + 1
    ensures r.Stop? <==> !IsArithmetic(s[i]) && !(i + 1 < |s| && s[i..i + 2] in CompoundOperators)
    ensures !r.Skip?
  {
    var c := s[i];
    if i + 1 < |s| && [c, s[i + 1]] in CompoundOperators then
      assert s[i..i + 2] == [c, s[i + 1]];
      Emit(Token(CompoundOperator, [c, s[i + 1]]), i + 2)
    else
      assert i + 1 < |s| ==> s[i..i + 2] == [c, s[i + 1]];
      if IsArithmetic(c) then Emit(Token(Operator, [c]), i + 1)
      else Stop(ErrorAfter(s, i + 1, InvalidArithmeticOperator(c)))
  }

  /** `relational_operator()`: `!=`, `=`, or `>`/`<` as a plain operator;
      a lone `!` is an error. */
  function ScanRelational(s: string, i: nat): (r: Step)
    requires i < |s|
    ensures r.Emit? && r.token.kind == NotEqual <==> s[i] == '!' && i + 1 < |s| && s[i + 1] == '='
    ensures r.Emit? && r.token.kind == NotEqual ==> r.token.lexeme == "!=" && r.next == i + 2
    ensures r.Emit? && r.token.kind != NotEqual ==> r.token.lexeme == [s[i]] && r.next == i + 1
    ensures r.Emit? && r.token.kind == Equal <==> s[i] == '='
    ensures r.Emit? && r.token.kind == Operator <==> s[i] == '>' || s[i] == '<'
    ensures r.Stop? <==> s[i] != '=' && s[i] != '>' && s[i] != '<' && !(s[i] == '!' && i + 1 < |s| && s[i + 1] == '=')
    ensures !r.Skip?
  {
    var c := s[i];
    if c == '!' && i + 1 < |s| && s[i + 1] == '=' then Emit(Token(NotEqual, "!="), i + 2)
    else if c == '=' then Emit(Token(Equal, "="), i + 1)
    else if c == '>' || c == '<' then Emit(Token(Operator, [c]), i + 1)
    else Stop(ErrorAfter(s, i + 1, InvalidRelationalOperator(c)))
  }

  /** One iteration of the `tokenize` loop at position `i`: whitespace and
      comments are skipped, anything else is a token or an error. */
  function StepAt(s: string, i: nat): (r: Step)
    requires i < |s|
    ensures !r.Stop? ==> i < r.next <= |s|
  {
    var c := s[i];
    if IsSpace(c) then Skip(SpaceEnd(s, i))
    else if c == '{' then
      match CommentEnd(s, i + 1)
      case Some(j) => Skip(j)
      case None => Stop(ErrorAfter(s, |s|, UnclosedComment))
    else TokenStep(s, i)
  }

  /** The token branches of the loop: a word, a number, or a symbol. */
  function TokenStep(s: string, i: nat): (r: Step)
    requires i < |s|
    ensures r.Emit? ==> i < r.next <= |s|
    ensures !r.Skip?
  {
    var c := s[i];
    if IsWordStart(c) then
      var j := WordEnd(s, i);
      Emit(ClassifyWord(s[i..j]), j)
    else if IsDigit(c) then ScanNumberToken(s, i)
    else SymbolStep(s, i)
  }

  /** The symbol branches of the loop: operators, punctuation, or an
      unexpected character. */
  function SymbolStep(s: string, i: nat): (r: Step)
    requires i < |s|
    ensures r.Emit? ==> i < r.next <= |s|
    ensures !r.Skip?
  {
    var c := s[i];
    if IsArithmetic(c) then ScanArithmetic(s, i)
    else if IsRelationalStart(c) then ScanRelational(s, i)
    else if c == ',' then Emit(Token(Comma, ","), i + 1)
    else if c == ':' then Emit(Token(Colon, ":"), i + 1)
    else if IsDelimiter(c) then Emit(Token(DelimiterKind(c), [c]), i + 1)
    else Stop(ErrorAfter(s, i + 1, UnexpectedCharacter(c)))
  }

  /** The tokens appended from position `i` on, and the error that ended
      the scan, if any (tokens appended before an error stay appended). */
  datatype Run = Run(tokens: seq<Token>, error: Option<LexError>)

  function Prepend(ts: seq<Token>, r: Run): Run {
    Run(ts + r.tokens, r.error)
  }

  lemma PrependPrepend(a: seq<Token>, b: seq<Token>, r: Run)
    ensures Prepend(a, Prepend(b, r)) == Prepend(a + b, r)
  {
    assert a + (b + r.tokens) == (a + b) + r.tokens;
  }

  function LexFrom(s: string, i: nat): Run
    requires i <= |s|
    decreases |s| - i
  {
    if i == |s| then Run([], None)
    else
      match StepAt(s, i)
      case Skip(j) => LexFrom(s, j)
      case Emit(t, j) => Prepend([t], LexFrom(s, j))
      case Stop(e) => Run([], Some(e))
  }

  /** One step of the scan, as a statement about the run from `i`. */
  lemma LexFromStep(s: string, i: nat)
    requires i < |s|
    ensures StepAt(s, i).Skip? ==> LexFrom(s, i) == LexFrom(s, StepAt(s, i).next)
    ensures StepAt(s, i).Emit? ==> LexFrom(s, i) == Prepend([StepAt(s, i).token], LexFrom(s, StepAt(s, i).next))
    ensures StepAt(s, i).Stop? ==> LexFrom(s, i) == Run([], Some(StepAt(s, i).error))
  {
  }

  // ------------------------------------------------------------------
  // Properties of the scanner
  // ------------------------------------------------------------------

  /** Every token consumes at least one character. */
  lemma {:induction false} LexTokenCount(s: string, i: nat)
    requires i <= |s|
    ensures |LexFrom(s, i).tokens| <= |s| - i
    decreases |s| - i
  {
    if i < |s| {
      match StepAt(s, i)
      case Skip(j) => LexTokenCount(s, j);
      case Emit(t, j) => LexTokenCount(s, j);
      case Stop(e) =>
    }
  }

  /** `{` always opens a comment and `,`/`:` have their own kinds, so the
      scanner never emits 'left_brace' or the catch-all 'delimiter' kind. */
  lemma {:induction false} LexNeverEmitsLeftBrace(s: string, i: nat)
    requires i <= |s|
    ensures forall k | 0 <= k < |LexFrom(s, i).tokens| ::
              LexFrom(s, i).tokens[k].kind != LeftBrace && LexFrom(s, i).tokens[k].kind != Delimiter
    decreases |s| - i
  {
    if i < |s| {
      match StepAt(s, i)
      case Skip(j) => LexNeverEmitsLeftBrace(s, j);
      case Emit(t, j) =>
        LexNeverEmitsLeftBrace(s, j);
        var c := s[i];
        assert t.kind != LeftBrace && t.kind != Delimiter;
      case Stop(e) =>
    }
  }

  /** A source made only of whitespace yields no token and no error. */
  lemma WhitespaceOnlyLexesToNothing(s: string)
    requires forall k | 0 <= k < |s| :: IsSpace(s[k])
    ensures LexFrom(s, 0) == Run([], None)
  {
    if |s| > 0 {
      assert SpaceEnd(s, 0) == |s|;
    }
  }

  /** A `{` with no later `}` ends the scan with "Unclosed comment",
      reported at the line and column reached at the end of the input. */
  lemma UnclosedCommentReported(s: string, i: nat)
    requires i < |s| && s[i] == '{'
    requires forall k | i < k < |s| :: s[k] != '}'
    ensures LexFrom(s, i) == Run([], Some(LexError(UnclosedComment, LineAt(s, |s|), ColumnAt(s, |s|))))
  {
    assert CommentEnd(s, i + 1).None?;
  }

  /** A closed comment contributes nothing: the step at its `{` skips to
      just after the first `}`, so (by `LexFromStep`) the scan resumes
      there with no token and no error. */
  lemma ClosedCommentSkipped(s: string, i: nat, j: nat)
    requires i < j < |s| && s[i] == '{' && s[j] == '}'
    requires forall k | i < k < j :: s[k] != '}'
    ensures StepAt(s, i) == Skip(j + 1)
  {
    var r := CommentEnd(s, i + 1);
    assert r == Some(j + 1);
  }

  /** `>=` is not a token: it scans as the operator `>` followed by `=`. */
  lemma GreaterEqualIsTwoTokens(s: string, i: nat)
    requires i + 1 < |s| && s[i] == '>' && s[i + 1] == '='
    ensures |LexFrom(s, i).tokens| >= 2
    ensures LexFrom(s, i).tokens[..2] == [Token(Operator, ">"), Token(Equal, "=")]
  {
    assert StepAt(s, i) == Emit(Token(Operator, ">"), i + 1);
    assert StepAt(s, i + 1) == Emit(Token(Equal, "="), i + 2);
  }

  /** Keywords are recognised regardless of case. */
  lemma KeywordCaseInsensitive(w1: string, w2: string)
    requires Upper(w1) == Upper(w2)
    ensures ClassifyWord(w1).kind == ClassifyWord(w2).kind
  {
  }

  // ------------------------------------------------------------------
  // Symbol table
  // ------------------------------------------------------------------

  datatype SymbolType = Unknown | Integer | Function

  /** One symbol-table entry: the dict `{'name', 'type'[, 'parameters']}`. */
  datatype Entry = Entry(name: string, typ: SymbolType, parameters: Option<seq<string>>)

  type Table = map<string, Entry>

  /** `add_to_symbol_table`: insert-if-absent. */
  function AddSymbol(t: Table, id: string): (r: Table)
    ensures r.Keys == t.Keys + {id}
    ensures id in t ==> r == t
    ensures id !in t ==> r[id] == Entry(id, Unknown, None)
    ensures forall n | n in t :: r[n] == t[n]
  {
    if id in t then t else t[id := Entry(id, Unknown, None)]
  }

  /** The table after the identifier tokens of `ts` were recorded in order. */
  function Recorded(t: Table, ts: seq<Token>): Table
    decreases |ts|
  {
    if ts == [] then t
    else
      var t0 := Recorded(t, ts[..|ts| - 1]);
      var last := ts[|ts| - 1];
      if last.kind == Identifier then AddSymbol(t0, last.lexeme) else t0
  }

  /** Recording one more token: an identifier is inserted if absent. */
  lemma RecordedSnoc(t: Table, ts: seq<Token>, x: Token)
    ensures Recorded(t, ts + [x]) == if x.kind == Identifier then AddSymbol(Recorded(t, ts), x.lexeme) else Recorded(t, ts)
  {
    assert (ts + [x])[..|ts|] == ts;
  }

  function IdentifierNames(ts: seq<Token>): set<string> {
    set k | 0 <= k < |ts| && ts[k].kind == Identifier :: ts[k].lexeme
  }

  /** Recording keeps every existing entry, adds exactly the new identifier
      names, each as an 'unknown' entry. */
  lemma {:induction false} RecordedEntries(t: Table, ts: seq<Token>)
    ensures Recorded(t, ts).Keys == t.Keys + IdentifierNames(ts)
    ensures forall n | n in t :: Recorded(t, ts)[n] == t[n]
    ensures forall n | n in IdentifierNames(ts) && n !in t :: Recorded(t, ts)[n] == Entry(n, Unknown, None)
    decreases |ts|
  {
    if ts != [] {
      var front := ts[..|ts| - 1];
      RecordedEntries(t, front);
      var last := ts[|ts| - 1];
      assert ts == front + [last];
      RecordedSnoc(t, front, last);
      IdentifierNamesSnoc(front, last);
    }
  }

  /** The identifier names of one more token. */
  lemma IdentifierNamesSnoc(front: seq<Token>, last: Token)
    ensures IdentifierNames(front + [last])
            == IdentifierNames(front) + (if last.kind == Identifier then {last.lexeme} else {})
  {
    var ts := front + [last];
    forall n | n in IdentifierNames(ts)
      ensures n in IdentifierNames(front) || (last.kind == Identifier && n == last.lexeme)
    {
      var k :| 0 <= k < |ts| && ts[k].kind == Identifier && ts[k].lexeme == n;
      if k < |front| { assert front[k] == ts[k]; }
    }
    forall n | n in IdentifierNames(front) ensures n in IdentifierNames(ts) {
      var k :| 0 <= k < |front| && front[k].kind == Identifier && front[k].lexeme == n;
      assert ts[k] == front[k];
    }
    if last.kind == Identifier {
      assert ts[|front|] == last;
    }
  }
}
